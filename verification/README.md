# Treasury money core: a verified model

The treasury daemon keeps money in a double-entry ledger. Three services sit on it: wallets with holds,
trade settlement through an escrow account, and reconciliation against outside providers. This project models
those four, proves what every run of calls keeps true, and says exactly when the guarantees stop holding.

The ledger never sums history to answer a balance query. Each posting becomes two moves, a debit and a credit,
and every move caches the running totals of its account and asset. A balance is read from the newest move. So the
ledger is a cache that has to agree with a replay, and most of the laws here are about that agreement.

## How it is built

| files | what they hold |
|---|---|
| `Base.dfy` | results and errors, base-10 parse and print, colon-joined names |
| `Volumes.dfy`, `Effects.dfy` | running totals, the builder of one request's moves, net effects and conservation |
| `Ledger.dfy` | the ledger as functions on its state, and how one call changes the books |
| `LedgerLaws.dfy`, `LedgerRuns.dfy`, `IdLaws.dfy`, `Reversals.dfy` | laws over runs of ledger calls |
| `MemStore.dfy`, `LedgerService.dfy` | the in-memory store and the ledger service as classes, loop for loop |
| `LedgerAnswers.dfy`, `WalletAnswers.dfy`, `TradeAnswers.dfy` | what each call answers, stores and moves, with every name spelled out |
| `LedgerEffects.dfy` | what a ledger call does to balances and references, for the services above it |
| `Wallets.dfy`, `WalletLaws.dfy`, `WalletTotals.dfy`, `WalletRuns.dfy`, `WalletService.dfy` | wallets and holds: functions, laws, which calls succeed, class |
| `Settlement.dfy`, `SettlementLaws.dfy`, `EscrowLaws.dfy`, `SettlementService.dfy` | trade settlement, what it answers, and the escrow account |
| `Reconciliation.dfy`, `ReconciliationService.dfy` | comparison runs, corrections, provider aggregation |
| `PgStore.dfy`, `StoreAgreement.dfy` | the SQL store's tables and queries, and its agreement with the in-memory store |
| `Interleaving.dfy`, `Serialisability.dfy` | `PostTransaction` cut into store calls, with clients interleaving |
| `RevertProtocol.dfy` | `RevertTransaction` as a protocol of many clients that may crash and retry |

Every class method is proved against a function or relation on the old state. The laws are then lemmas about those
functions over whole runs: a run is a sequence of calls, `Run(ops)` is the state it leaves, and the ledger and wallet services carry
a ghost history with the invariant that their state is exactly the run of that history. Addresses, assets, references and map keys are real
strings, so the fact that two names differ is proved, never assumed. Amounts are decimal strings, parsed and printed.
The `...Answers` modules then say what these functions mean without naming them: which account, reference, amount, error and
figure a caller sees, in terms of the request and of what was stored before.
The wallet class also carries a ghost record of the amounts confirmed per hold, which only the laws use.

## What was found

* The cached volumes are exact after any run if and only if no accepted request contains two distinct (address, asset)
  pairs with the same `address + ":" + asset` key. Of the pairs in such a request, exactly those that come after another
  pair under their key go wrong, for good: their reads stay above the replay. Assets without colons suffice, but the
  code does not ask for that: a two-posting request is accepted after which a balance is reported as 12 for an account
  that received 7.
* Confirming the same amount twice on one hold is dropped by the ledger as a repeated reference, yet `Remaining` still
  falls. The hold's account therefore holds `Remaining` plus the repeated amounts, and equals `Remaining` exactly when
  no confirm amount repeats. After a hold of 10 and two confirms of 4, `Remaining` is 2 and the account reports 6.
* Reverting a ledger transaction behind a hold takes the money back without touching the hold. The hold's account then
  holds `Remaining`, plus the repeated amounts, minus what was taken back: after a hold of 10, a confirm of 4 and the
  revert of the funding, `Remaining` is 6 and the account reports -4.
* A settlement under a trade id that was used before is answered "settled" with the new request's figures and the first
  transaction's id, and moves nothing. The answer is true of the stored transaction exactly when the id was new or the
  stored legs are the same.
* Escrow reads zero after every call of a run, and is overdrawn on the way exactly when a revert posts the reversal of a
  settlement: the reversal pays escrow's first leg out before the others pay it back in.
* If somebody already used reference `revert:<id>`, reverting `<id>` moves no money but still marks the original.
* The account records of two ledgers are separate exactly when neither name begins with the other's name and a colon,
  because the store's key joins ledger and address by a colon: an account created on ledger `a:b` shows up under `a`.
* Correcting transactions close every reconciliation drift exactly when the provider reports nothing on the empty asset
  name. The provider aggregation shipped here never names it, so with it corrections always close; a provider that does
  leaves that drift open.
* Two posts whose calls overlap and that share an account and asset can always lose an update; posts with disjoint
  footprints never do, in any interleaving.
* Two overlapping posts with one reference can both be committed over the in-memory store, so every balance moves twice;
  the SQL store's unique index refuses the second. Interleaved posts with disjoint footprints equal the service run one
  post at a time exactly when no committed reference repeats: always with the index, and without it whenever no two
  calls under way share a reference.
* With the unique reference index at most one reversal is ever posted per transaction. Without it, as in the in-memory
  store, two overlapping reverts reverse twice; reverts of one transaction that never overlap reverse it at most once.
* `docs/INTEGRATIONS.md:188` promises a conflict error when a reference is reused with another payload. The code returns
  the first transaction instead; the model follows the code. Likewise the comment at `pkg/settlement/service.go:30`
  speaks of the gross amount, while the buyer is charged gross plus buyer commission.

## Model

| member | source | states |
|---|---|---|
| Decimal.ParsePrint | pkg/ledger/service.go:274-287 | printing an integer and parsing it back gives the same integer, negative ones included |
| Decimal.ParseMeaning | pkg/ledger/service.go:96-99 | a text is read as n exactly when it is an optional sign, any zeros and the printed size of n; every other text is refused |
| Decimal.PrintMeaning | pkg/ledger/service.go:274-287 | the printed form of n is the one text without plus sign, leading zeros or minus zero that reads as n |
| Text.ValidAddressMeaning | pkg/ledger/service.go:314-324 | the segment check accepts exactly the non-empty strings without a leading, trailing or doubled colon |
| Volumes.LatestIsTotal | pkg/ledger/memstore.go:200-217 | where the caches are exact, the newest matching move carries the sums of all matching moves |
| Volumes.BuildTracks | pkg/ledger/service.go:118-189 | whatever the keys, each move's totals are the stored volumes plus the sums of this request's moves under the same key, however often an account recurs |
| Volumes.BuildDependsOnEnds | pkg/ledger/service.go:142-172 | only the volumes of the pairs a request touches influence the moves it builds |
| Volumes.ClashCorrupts | pkg/ledger/service.go:143-186 | when two distinct pairs share a key, the later of the two moves over-counts, whatever the rest of the store holds |
| Volumes.CacheLaw | pkg/ledger/service.go:118-191 | one request keeps every cached total exact if and only if none of its pairs share a key |
| Volumes.PairCacheLaw | pkg/ledger/service.go:118-191 | one request keeps a given pair's cached totals exact if and only if none of its postings touches the pair after one that touched another pair under its key |
| Volumes.PairReadLaw | pkg/ledger/service.go:118-191 | what is read of a pair never falls below the replay, and equals it after a request exactly if it did before and the request does not touch the pair after another one under its key |
| Volumes.ColonFreeAssetsDoNotClash | pkg/ledger/service.go:143-166 | colon-free assets are enough for distinct pairs to have distinct keys, whatever the addresses |
| Volumes.OneAssetDoesNotClash | pkg/ledger/service.go:143-166 | so is using one asset throughout the request |
| Effects.ShapedNet | pkg/ledger/service.go:142-186 | two legs per posting carry the posting list's net effect and cancel over the ledger, whatever totals they cache |
| Effects.SwapNegates | pkg/ledger/service.go:238-247 | swapping the ends of every posting negates the effect on every account |
| Effects.SwapKeepsClashes | pkg/ledger/service.go:238-247 | a reversal has colliding keys exactly when its original has |
| Effects.BalancesSumToLedgerNet | pkg/ledger/memstore.go:200-217 | account totals listed once each, in any order, add up to the ledger's net |
| LedgerSteps.CommitPosts | pkg/ledger/service.go:102-212 | a fresh valid request appends exactly one transaction with its moves and touches no other ledger's list |
| LedgerLaws.FirstErrorMeaning | pkg/ledger/service.go:82-100 | the error returned is that of the first posting that fails, and all earlier ones pass every check |
| LedgerLaws.RunKeepsBooks | pkg/ledger/service.go:69-266 | every reachable state has increasing ids, unique references, valid stored postings, printed integer volumes, and moves that net to the replay and cancel per ledger and asset |
| LedgerLaws.RunKeepsPairLaw | pkg/ledger/service.go:118-191 | over any run, a pair's caches are exact, and its reads are the replayed volumes, if and only if no stored transaction touches the pair after another one under its key, whatever other pairs do |
| LedgerLaws.RunCacheLaw | pkg/ledger/service.go:118-191 | over any run of posts and reverts, all cached volumes equal the replay if and only if no stored transaction has colliding keys |
| LedgerLaws.ReadIsReplayedIff | pkg/ledger/service.go:296-310 | the volumes read are those replayed exactly under that condition, and at least those replayed always |
| LedgerLaws.ReportedIsReplayed | pkg/ledger/service.go:269-289 | under that condition the balance read from the newest move is the replay of all stored transactions on that account |
| LedgerLaws.ReportedBalancesSumToZero | pkg/ledger/service.go:269-289 | the reported balances of all accounts of a ledger sum to zero in every asset in which that condition holds for each of them; collisions in other assets do not matter |
| LedgerLaws.StoredVolumesParse | pkg/ledger/service.go:296-310 | every stored amount and volume parses and is in printed form, so the nil-to-zero fallbacks are never reached for a stored move |
| LedgerLaws.ClashIsMisreported | pkg/ledger/service.go:326-332 | an accepted request after which the reported balance is 12 and the replayed one 7 |
| LedgerRuns.ErrorsChangeNothing | pkg/ledger/service.go:69-266 | a post or revert that returns an error leaves the whole state as it was |
| LedgerRuns.RevertSucceedsIff | pkg/ledger/service.go:229-266 | in reachable states a revert succeeds exactly on a stored transaction that is not marked |
| LedgerRuns.RevertEffect | pkg/ledger/service.go:229-266 | a successful revert marks the original and takes back its effect on every account, or moves nothing if its reference was taken |
| LedgerRuns.RetryReturnsFirst | pkg/ledger/service.go:74-80 | repeating a reference that an accepted post or revert carried in returns the first call's transaction id and changes nothing, whatever happened in between |
| LedgerRuns.RetriesChangeNothing | pkg/ledger/service.go:74-80 | dropping every post whose reference an earlier post or revert already carried in leaves an identical final state: accounts, ids, moves and logs |
| LedgerRuns.OtherLedgersUntouched | pkg/ledger/memstore.go:97-217 | a call on one ledger changes no transaction and no reported balance of another |
| LedgerRuns.KeysMeetMeaning | pkg/ledger/memstore.go:42-46 | accounts of two ledgers can share a key if and only if one ledger's name and a colon begin the other's name |
| LedgerRuns.OtherAccountsUntouched | pkg/ledger/memstore.go:39-52 | nor another ledger's account records, unless its own name goes on after the other's name and a colon, or the other's name goes on after its own with an address between |
| LedgerRuns.AccountsIsolatedIff | pkg/ledger/memstore.go:39-64 | no call on one ledger ever changes what is found under another exactly when its name does not reach the other's |
| LedgerRuns.AccountAppearsElsewhere | pkg/ledger/memstore.go:39-64 | creating account c on ledger a:b makes account b:c appear on ledger a, where there was none |
| LedgerRuns.ForgedReference | pkg/ledger/service.go:229-266 | whenever another client's post uses revert:<id> before the transaction is reverted, the revert succeeds, marks it, and moves nothing on any account |
| LedgerRuns.ForgedReferenceRun | pkg/ledger/service.go:229-266 | a run of three calls on any ledger in which that happens and the 5 paid stay where they are |
| LedgerRuns.PagesConcatenate | pkg/ledger/memstore.go:165-182 | pages at offsets 0, limit, 2*limit and so on join to all transactions, newest first, each once |
| IdLaws.AllIdsDistinct | pkg/ledger/memstore.go:34-37 | in every reachable state no id belongs to two records, over all ledgers and all kinds of record |
| Chains.StandsIffEven | pkg/ledger/service.go:229-266 | a transaction stands exactly when its reversal chain has even length |
| Chains.ParityLaw | pkg/ledger/service.go:229-266 | the sum of all posted effects is the sum over client transactions that stand |
| Reversals.RunIsChained | pkg/ledger/service.go:229-266 | over any run without client use of revert references, each transaction has at most one reversal, later and opposite, so reversals form disjoint acyclic chains, and is marked exactly when it has one |
| Reversals.BalanceCountsStanding | pkg/ledger/service.go:229-266 | each balance is the net effect of exactly the client transactions whose reversal chain is even |
| Reversals.ReportedCountsStanding | pkg/ledger/service.go:269-289 | so is each reported balance, wherever no stored transaction confuses the account |
| LedgerEffects.PostTakes | pkg/ledger/service.go:69-213 | seen from balances and references, a post adds exactly its postings under its reference, or nothing |
| LedgerEffects.RevertTakes | pkg/ledger/service.go:229-266 | a revert that posts a reversal takes back exactly the effect of the stored transaction, any other changes no balance; what clients posted, cleanness and all references but its own stay |
| LedgerAnswers.AccountAnswers | pkg/ledger/service.go:31-54 | the two refusals and when each is given; otherwise the account found afterwards, its id and kind; no other address of the ledger changes |
| LedgerAnswers.PostingErrorMeaning | pkg/ledger/service.go:82-100 | which of the five errors a posting gets: the first check it fails |
| LedgerAnswers.PostAnswers | pkg/ledger/service.go:69-100 | every post that stores nothing, in the order of the checks: no postings, a reference already stored (answered with its first transaction), the first failing posting's error |
| LedgerAnswers.PostStores | pkg/ledger/memstore.go:97-137 | any other post stores its postings field by field, two moves each, the posting map entry and one log entry, with ids running transaction, postings, moves, log; missing ends become unknown accounts |
| LedgerAnswers.RevertAnswers | pkg/ledger/service.go:229-266 | in reachable states: the two refusals and when each is given; otherwise the mark, and an answer under `revert:<id>` that is new with every posting swapped, or the one stored there already |
| LedgerAnswers.MarkAnswers | pkg/ledger/memstore.go:184-198 | the store's mark on any list: not found, already marked, or exactly the first transaction with that id marked |
| LedgerAnswers.PageMeaning | pkg/ledger/memstore.go:165-182 | how long a page is, and which transaction stands at each place of it |
| LedgerAnswers.RowIsReplayedIff | pkg/ledger/service.go:269-289 | a balance row names the pair asked for and its balance is inputs minus outputs; inputs and outputs are the sums over all moves into and out of the account if and only if no stored transaction confuses the pair |
| LedgerAnswers.RowsAreReplayedIff | pkg/ledger/memstore.go:219-251 | the same for every row of the all-assets read |
| MemStore.Store.constructor | pkg/ledger/memstore.go:23-29 | a new store is the empty state every run starts from |
| MemStore.Store.NextSeq | pkg/ledger/memstore.go:34-37 | the counter steps by one and its new value is the id |
| MemStore.Store.CreateAccount | pkg/ledger/memstore.go:39-52 | an existing key keeps its account and id, a new one takes the next id, nothing else changes |
| MemStore.Store.GetAccount | pkg/ledger/memstore.go:54-64 | found exactly when the ledger and address key is present |
| MemStore.Store.InsertTransaction | pkg/ledger/memstore.go:97-137 | ids run transaction, postings, moves; only the caller's moves receive posting ids, and move k gets posting k/2's |
| MemStore.Store.AssignPostingIds | pkg/ledger/memstore.go:127-134 | the pairing loop gives move k the id of posting k/2 and leaves moves beyond two per posting alone |
| MemStore.Store.GetTransaction | pkg/ledger/memstore.go:139-151 | the first transaction of the ledger with that id, if any |
| MemStore.Store.GetTransactionByReference | pkg/ledger/memstore.go:153-163 | the first transaction of the ledger with that reference, if any |
| MemStore.Store.ListTransactions | pkg/ledger/memstore.go:165-182 | the slice of the newest-first list between offset and offset plus limit, cut at the end |
| MemStore.Store.RevertTransaction | pkg/ledger/memstore.go:184-198 | marks the found, unmarked transaction in place; otherwise reports which of the two failed and changes nothing |
| MemStore.Store.GetAccountBalance | pkg/ledger/memstore.go:200-217 | the backward scan returns the volumes of the newest matching move, or zeros |
| MemStore.Store.LatestByAsset | pkg/ledger/memstore.go:223-230 | the forward overwrite ends with the newest matching move of each asset, as the backward scan finds it |
| MemStore.Store.GetAccountBalances | pkg/ledger/memstore.go:219-251 | lists each asset the account ever touched exactly once, with the values of the single-asset read, which LedgerAnswers.RowsAreReplayedIff spells out |
| MemStore.Store.InsertLog | pkg/ledger/memstore.go:253-263 | appends one entry under the next id |
| LedgerService.Service.constructor | pkg/ledger/service.go:18-20 | a service over an empty store starts with an empty history |
| LedgerService.Service.CreateAccount | pkg/ledger/service.go:31-54 | refuses bad addresses and kinds without effect; otherwise the account exists and its id is returned |
| LedgerService.Service.GetVolumes | pkg/ledger/service.go:296-310 | the parsed volumes of the newest matching move |
| LedgerService.Service.EnsureAccount | pkg/ledger/service.go:127-140 | creates the account as unknown only if it is missing |
| LedgerService.Service.BuildMove | pkg/ledger/service.go:142-163 | one end's move and the updated adjustment entry |
| LedgerService.Service.ValidatePostings | pkg/ledger/service.go:82-100 | the error of the first posting that has one, in the order of the checks |
| LedgerService.Service.PrepareMoves | pkg/ledger/service.go:118-189 | the volume loop yields the moves the laws speak of, reading a store that creates accounts on the way |
| LedgerService.Service.PostTransaction | pkg/ledger/service.go:69-213 | result and whole new state of a post; the store stays equal to the run of the calls made |
| LedgerService.Service.RevertTransaction | pkg/ledger/service.go:229-266 | result and whole new state of a revert; the store stays equal to the run of the calls made |
| LedgerService.Service.GetTransaction | pkg/ledger/service.go:216-218 | the stored transaction with that id, if any |
| LedgerService.Service.ListTransactions | pkg/ledger/service.go:221-226 | the requested page, with 100 for a limit that is not positive |
| LedgerService.Service.GetAccountBalance | pkg/ledger/service.go:269-289 | the row asked for, its balance being inputs minus outputs and the reported balance; inputs and outputs are the sums over all moves if and only if no stored transaction confuses the pair |
| LedgerService.Service.GetAccountBalances | pkg/ledger/service.go:292-294 | every touched asset once, each row as the single-asset read gives it, with the same exact condition after any run |
| WalletNames.HoldAddressInjective | pkg/wallet/service.go:180-180 | hold accounts of different wallets or holds have different addresses |
| WalletNames.MainIsNotHold | pkg/wallet/service.go:179-180 | a main account is never a hold account |
| WalletNames.ConfirmReferenceInjective | pkg/wallet/service.go:262-262 | a confirm reference determines its hold and its amount |
| HoldLaws.RunSound | pkg/wallet/service.go:36-339 | every world reachable by allowed calls, ledger reverts of anything included, has sound holds and references, and hold accounts on which clients' transactions put what the holds say |
| HoldLaws.BooksAreRun | pkg/wallet/service.go:36-339 | whatever the wallet service does to the ledger is a run of ledger calls |
| HoldLaws.RunReversals | pkg/ledger/service.go:229-266 | over any run of wallet and ledger calls, a balance is what was posted under other than revert references plus what the reverts took back, call by call |
| HoldLaws.HoldBalanceLaw | pkg/wallet/service.go:169-339 | a hold account's reported balance is Remaining plus repeated confirm amounts plus what ledger reverts took back from it, and so Remaining plus the repeats if and only if reverts took back nothing in all; then it is never negative, and equal to Remaining if and only if no confirm amount repeats |
| HoldLaws.LifecycleLaw | pkg/wallet/service.go:224-339 | 0 <= Remaining <= Amount; pending, partial and closed are exactly Remaining equal to Amount, strictly between, and zero |
| HoldLaws.HoldChanges | pkg/wallet/service.go:224-339 | any call leaves a hold as it is or, as a successful confirm or void of that open hold, strictly lowers Remaining |
| HoldLaws.ClosedStaysClosed | pkg/wallet/service.go:231-233 | a confirmed or voided hold never changes again |
| HoldLaws.SettlementsBounded | pkg/wallet/service.go:224-339 | over any run a hold accepts at most Amount successful confirms and voids |
| WalletTotals.TotalLaw | pkg/wallet/service.go:79-339 | available plus held equals credits minus debits minus confirmed amounts plus what ledger reverts took back from the main account, over the whole run; a confirm counts the amount it asks for and not what it does to the hold |
| WalletTotals.ReportedTotalLaw | pkg/wallet/service.go:119-166 | the same for the balance read from the newest move |
| WalletTotals.HoldsKeepTotals | pkg/wallet/service.go:169-339 | creating or voiding a hold never changes any wallet's total |
| WalletRuns.WalletAlwaysCreated | pkg/wallet/service.go:36-65 | creating a wallet always succeeds: the account name it makes up passes the ledger's checks |
| WalletRuns.HoldAccepted | pkg/wallet/service.go:169-220 | creating a hold succeeds exactly on a known wallet, a named asset and a positive integer amount, and its account step is never refused |
| WalletRuns.ConfirmAccepted | pkg/wallet/service.go:224-288 | a confirm succeeds exactly on an open hold and an amount within Remaining, if the destination is a valid address or the amount was confirmed before |
| WalletRuns.VoidAccepted | pkg/wallet/service.go:291-339 | a void succeeds exactly on an open hold: its payment is never refused |
| WalletRuns.ConfirmedTwice | pkg/wallet/service.go:256-288 | in any sound world two confirms of one new amount both succeed, Remaining falls by twice the amount and the hold's account by the amount once |
| WalletRuns.TwiceConfirmedRun | pkg/wallet/service.go:224-288 | the run of a hold of 10 and two confirms of 4: Remaining 2, reported balance 6 |
| WalletRuns.FundingReverted | pkg/ledger/service.go:229-266 | after any run, reverting the transaction that funded a hold lowers the hold account by the whole amount, whatever was confirmed, and leaves the hold as it was |
| WalletRuns.FundingRevertedRun | pkg/ledger/service.go:229-266 | the run of a hold of 10, a confirm of 4 and the revert of the funding: Remaining 6, reported balance -4 |
| WalletRuns.HeldIsSeen | pkg/wallet/service.go:119-166 | after any run, an asset in which a wallet holds anything has moved on its main account |
| WalletAnswers.CreateAnswers | pkg/wallet/service.go:36-65 | the wallet returned and stored, its id, and its main account |
| WalletAnswers.CreditAnswers | pkg/wallet/service.go:79-96 | a credit changes every balance by one entry from the named source, or `world` when none is named, to the wallet's main account, and nothing else; otherwise it gives the ledger's error for that posting |
| WalletAnswers.DebitAnswers | pkg/wallet/service.go:99-116 | a debit likewise, from the main account to the named destination or `world` |
| WalletAnswers.HoldAnswers | pkg/wallet/service.go:169-220 | the hold returned and stored, its account, and one entry from main to it under `hold:<id>`; when the ledger refuses, the id is spent, the account stays and nothing moves |
| WalletAnswers.BrokenHold | pkg/wallet/service.go:235-306 | the refusals of an open hold whose wallet is gone or whose Remaining is no positive integer, which the hold laws show never to arise |
| WalletAnswers.ConfirmRefusals | pkg/wallet/service.go:224-254 | the four refusals made before the ledger is asked, each with its condition |
| WalletAnswers.ConfirmAnswers | pkg/wallet/service.go:224-288 | Remaining and status afterwards; an amount new for the hold changes every balance by one entry from the hold's account to its stored destination, or `world` when none is stored; a repeated amount moves nothing |
| WalletAnswers.VoidAnswers | pkg/wallet/service.go:291-339 | the refusals, the closed hold, and one entry of all that remains from the hold's account to main under `void:<id>` |
| WalletService.RowsTell | pkg/wallet/service.go:147-164 | each row shown: available is the main account's reported balance, held the sum of Remaining over open holds, total their sum |
| WalletService.ShownTotalLaw | pkg/wallet/service.go:119-166 | over any run the total shown is credits minus debits minus confirmed amounts plus what ledger reverts took back from the main account |
| WalletService.Service.constructor | pkg/wallet/service.go:22-28 | a new service is the empty world |
| WalletService.Service.GenID | pkg/wallet/service.go:30-33 | prefix, underscore and the next number |
| WalletService.Service.CreateWallet | pkg/wallet/service.go:36-65 | result and whole new world, added to the history; the counter advances even when the account is refused |
| WalletService.Service.Credit | pkg/wallet/service.go:79-96 | result and whole new world of a credit, from world by default; WalletAnswers.CreditAnswers says which balances change |
| WalletService.Service.Debit | pkg/wallet/service.go:99-116 | result and whole new world of a debit, to world by default; WalletAnswers.DebitAnswers says which balances change |
| WalletService.Service.CreateHold | pkg/wallet/service.go:169-220 | result and whole new world, including the id and account left behind when funding is refused |
| WalletService.Service.ConfirmHold | pkg/wallet/service.go:224-288 | result and whole new world; Remaining falls even when the ledger drops the repeated reference; WalletAnswers.ConfirmAnswers says who is paid |
| WalletService.Service.VoidHold | pkg/wallet/service.go:291-339 | result and whole new world of a void |
| WalletService.Service.HeldTotals | pkg/wallet/service.go:130-145 | in any map order, the sum of Remaining over the wallet's open holds of each asset |
| WalletService.Service.GetBalances | pkg/wallet/service.go:119-166 | one row per asset of the main account, in any state: its reported balance, the held sum, and the two added |
| WalletService.HeldIsListed | pkg/wallet/service.go:119-166 | after any run those rows leave out no asset in which the wallet holds anything |
| Settlement.TradeEntriesRead | pkg/settlement/service.go:80-126 | the printed posting list reads back as the intended legs, in order |
| Settlement.SettlementAccepted | pkg/settlement/service.go:38-126 | a trade past the settlement's checks is valid for the ledger if and only if its addresses are: buyer and seller valid and not escrow, and a desk's address valid where its commission is positive |
| Settlement.SettlementMoves | pkg/settlement/service.go:62-126 | the net of the posting list on every account and asset: the buyer pays gross plus buyer commission and exactly that reaches seller, desks and platform; escrow nets to zero |
| Settlement.SettlementIsClean | pkg/settlement/service.go:72-126 | a settlement never has colliding keys, whatever the currency string |
| SettlementLaws.SettleAnswers | pkg/settlement/service.go:37-151 | a settlement is answered exactly when its checks pass and its trade id was used before or its addresses are accepted |
| SettlementLaws.SettleMoves | pkg/settlement/service.go:37-151 | a call that is answered under a new trade id changes every balance of every ledger by what the trade distributes; any other call leaves the whole state as it was |
| SettlementLaws.AnswerIsTrueIff | pkg/settlement/service.go:128-151 | the answer points to the transaction stored under the trade id, and the legs it claims for the request's parties and asset are that transaction's if and only if the id was new or the stored legs are the same |
| SettlementLaws.SettledAgain | pkg/settlement/service.go:128-151 | settling a trade id again, after any other calls, answers with the first transaction's id and moves nothing; the answer equals the first one exactly when the five amounts agree |
| SettlementLaws.RepeatIsMisanswered | pkg/settlement/service.go:128-151 | settled for 100 and again for 50: the second answer claims a debit of 50 where 100 was paid once |
| TradeAnswers.TradeErrorMeaning | pkg/settlement/service.go:32-67 | which of the seven errors a trade gets: the first check it fails |
| TradeAnswers.AddressesPassMeaning | pkg/settlement/service.go:77-126 | which buyers, sellers and trade ids the ledger takes |
| TradeAnswers.LegsArePayments | pkg/settlement/service.go:69-126 | what the posted legs do to any account is what five named payments through `escrow:trades` do |
| TradeAnswers.TakenIffUsed | pkg/settlement/service.go:128-136 | over any run, `settle:<id>` is stored in the trades ledger exactly when an earlier call settled that id or posted under that reference |
| TradeAnswers.TradeOnBooks | pkg/settlement/service.go:128-150 | on any books, a free reference means a new transaction under it and the five payments made, a taken one means no change and the id of the first transaction there |
| TradeAnswers.TradeIsPostedIff | pkg/settlement/service.go:128-150 | over any run, a checked trade is posted as a new transaction and moves its payments if and only if no earlier call used its id |
| TradeAnswers.TwoTradesMove | pkg/settlement/service.go:128-150 | two trades with different unused ids both move their payments, as two transactions |
| TradeAnswers.TradeRefusals | pkg/settlement/service.go:32-139 | a refused trade changes nothing and gets the settlement's own error, or the ledger's for the first leg it refuses, wrapped |
| TradeAnswers.AnswerTells | pkg/settlement/service.go:141-150 | the trade id and the five figures of any answer |
| EscrowLaws.EscrowIsZero | pkg/settlement/service.go:37-151 | escrow's reported balance is zero in every asset after any run of settlements, reverts, and posts that keep off escrow |
| EscrowLaws.OverdrawnByReversal | pkg/ledger/service.go:229-266 | reversing a settlement while escrow reads zero stores a move that shows escrow overdrawn |
| EscrowLaws.EscrowOverdrawnIff | pkg/settlement/service.go:37-151 | over runs of settlements, reverts, and posts that keep off escrow, no escrow move records outputs above inputs if and only if no revert posted the reversal of a transaction that touched escrow |
| EscrowLaws.RevertedSettlementRun | pkg/settlement/service.go:37-151 | settling any trade on an empty ledger and reverting its transaction is such a run: escrow ends overdrawn |
| EscrowLaws.DirectPostOverdraws | pkg/ledger/service.go:69-213 | any acceptable new request that starts by paying out of an escrow that reads zero overdraws it too |
| EscrowLaws.EscrowNeverOverdrawn | pkg/settlement/service.go:80-126 | so in runs without reverts in the settlement ledger no stored escrow move ever records outputs above inputs |
| SettlementService.Service.constructor | pkg/settlement/service.go:24-26 | the service holds the ledger it is given |
| SettlementService.Service.CheckTrade | pkg/settlement/service.go:38-67 | the first failed check in order, after subtracting commission and fee in place |
| SettlementService.Service.BuildPostings | pkg/settlement/service.go:69-126 | the conditional appends give two to five legs, with commission and fee legs only when positive |
| SettlementService.Service.SettleTrade | pkg/settlement/service.go:37-151 | result and whole new ledger state; an error changes nothing; TradeAnswers.TradeOnBooks says what is posted under which reference |
| Reconciliation.ExactDriftsDecide | pkg/reconciliation/engine.go:107-137 | no drift is reported exactly when ledger and provider agree on every asset there is |
| Reconciliation.SumForAnyOrder | pkg/reconciliation/engine.go:188-203 | the aggregated sum does not depend on the order of the provider's accounts |
| Reconciliation.AggregatesAnyOrder | pkg/reconciliation/engine.go:188-204 | nor does the whole balance map |
| Reconciliation.OneCorrection | pkg/reconciliation/engine.go:124-133 | a correcting transaction moves the account by minus the difference in its asset and by nothing elsewhere |
| Reconciliation.CorrectionsClose | pkg/reconciliation/engine.go:60-141 | after one correction per drift the next comparison agrees everywhere, if and only if no drift was on the empty asset |
| Reconciliation.ExactDriftsTell | pkg/reconciliation/engine.go:124-134 | each drift shows the ledger's balance, the provider's, and the first minus the second |
| ReconciliationService.ReconciledIsReplayed | pkg/reconciliation/engine.go:75-85 | reading caches and replaying transactions reconcile alike when no stored transaction confuses the account |
| ReconciliationService.RunTellsDrifts | pkg/reconciliation/engine.go:98-137 | each drift of a run shows the reported balance of the policy's account, the provider's figure and their difference, and an asset has one, once, exactly when the two differ |
| ReconciliationService.NextRunIsOk | pkg/reconciliation/engine.go:60-141 | run, correct every drift, run again with the same provider balances: the second run is ok with no drifts if and only if the first had none on the empty asset |
| ReconciliationService.ClosedIffNoEmptyEntry | pkg/reconciliation/engine.go:60-141 | after any run of the ledger, corrections close the drifts if and only if the provider's map has no amount on the empty asset |
| ReconciliationService.AggregatesClose | pkg/reconciliation/engine.go:176-205 | the provider map built here never has that key, so with it corrections always close |
| ReconciliationService.EmptyEntryStaysOpen | pkg/reconciliation/engine.go:60-141 | with a provider map holding 5 on the empty asset they never do |
| ReconciliationService.Engine.constructor | pkg/reconciliation/engine.go:31-37 | no policies, no results, counter zero |
| ReconciliationService.Engine.GenID | pkg/reconciliation/engine.go:39-42 | prefix, underscore and the next number |
| ReconciliationService.Engine.AddPolicy | pkg/reconciliation/engine.go:45-57 | one policy is added under a fresh id and kept |
| ReconciliationService.Engine.ReadLedger | pkg/reconciliation/engine.go:75-85 | the map built from the rows gives every asset's reported balance, absent meaning zero |
| ReconciliationService.Engine.Compare | pkg/reconciliation/engine.go:98-137 | for any order of the union of assets: exactly one drift per differing asset, showing both sides and ledger minus provider, ok exactly without drifts |
| ReconciliationService.Engine.Run | pkg/reconciliation/engine.go:60-141 | unknown policy changes nothing; otherwise one result is stored, an error without provider balances, ok exactly when reconciled, by cache and by replay; each drift shows the reported balance, the provider's figure and their difference |
| ReconciliationService.Engine.ListResults | pkg/reconciliation/engine.go:150-158 | the stored results newest first |
| ReconciliationService.GetBalances | pkg/reconciliation/engine.go:176-205 | one entry per named currency holding the printed sum; accounts without balance, currency or integer add nothing |
| PgStore.NewestMeaning | pkg/ledger/pgstore.go:322-335 | the row chosen matches and has the highest id of all matching rows |
| PgStore.NewestIsLatest | pkg/ledger/pgstore.go:322-335 | with increasing ids it is the row a backward list scan finds first |
| PgStore.MarkSucceedsIff | pkg/ledger/pgstore.go:306-320 | after any statements of any clients, the conditional update succeeds exactly when the transaction has a row and no earlier update of it succeeded |
| PgStore.MarksOnce | pkg/ledger/pgstore.go:306-320 | however the clients' inserts and conditional updates interleave, at most one update of a transaction affects a row |
| PgStore.InsertRefusals | pkg/ledger/pgstore.go:168-229 | the two refusals of an insert, when each is given, and which ids they spend |
| PgStore.InsertStores | pkg/ledger/pgstore.go:168-229 | every other insert, row by row: the transaction with a null reference for the empty one, the postings, the moves and whose they are |
| PgStore.SlicesMeaning | pkg/ledger/pgstore.go:194-226 | which of the caller's postings and moves carry ids afterwards, and which ids |
| PgStore.MarkMeaning | pkg/ledger/pgstore.go:306-320 | the conditional update changes the mark of the matching rows and nothing else |
| PgStore.Store.constructor | pkg/ledger/pgstore.go:14-65 | empty tables with their own id sequences |
| PgStore.Store.InsertTransactionRow | pkg/ledger/pgstore.go:180-192 | refused exactly when the unique index holds the pair, spending an id either way |
| PgStore.Store.PairMoves | pkg/ledger/pgstore.go:211-225 | up to two moves take the posting's id in place and become rows in order |
| PgStore.Store.InsertLegs | pkg/ledger/pgstore.go:194-226 | up to the first amount that is not positive, all moves up to two per posting are inserted once, in order, each with posting k/2's id; that posting is refused and its id spent |
| PgStore.Store.InsertTransaction | pkg/ledger/pgstore.go:168-229 | whole new tables, sequences and slices for any postings and moves with integer texts: a taken reference or a refused amount leaves the rows as they were, the drawn ids spent and the ids already written to the slices in place |
| PgStore.Store.RevertTransaction | pkg/ledger/pgstore.go:306-320 | marks exactly the rows that qualify and reports an error when there are none |
| PgStore.Store.GetAccountBalance | pkg/ledger/pgstore.go:322-335 | the volumes of the highest-id matching row, or zeros |
| PgStore.Store.NewestByAsset | pkg/ledger/pgstore.go:337-347 | the highest-id row of each asset of the account |
| StoreAgreement.InsertPairs | pkg/ledger/pgstore.go:194-225 | tables in which every posting owns its two moves stay so after any insert, accepted or rolled back |
| StoreAgreement.StoresAgree | pkg/ledger/pgstore.go:322-335 | after the same posts both stores report the same volumes for every ledger, account and asset, and every posting owns exactly its two moves |
| Interleaving.MovesAlwaysCancel | pkg/ledger/service.go:124-191 | over either store, however store calls interleave and wherever clients stop, moves net to the replay and cancel per ledger and asset |
| Serialisability.CommitOrder | pkg/ledger/service.go:124-191 | over either store, with disjoint footprints the stored moves are those of a sequential run in commit order |
| Serialisability.SequentialIsRun | pkg/ledger/service.go:69-213 | that sequential run is the service's own if references do not repeat; if they do, the service leaves fewer moves |
| Serialisability.Serialisable | pkg/ledger/service.go:124-191 | overlapping posts that share no account and asset leave the moves and cached volumes of a sequential run in commit order, and those of the service run one post at a time if and only if no two committed posts carry the same reference |
| Serialisability.IndexKeepsDistinct | pkg/ledger/pgstore.go:34-34 | with the unique index no two committed posts carry the same reference, in any interleaving |
| Serialisability.LookUpKeepsDistinct | pkg/ledger/service.go:74-80 | without it the same holds as long as no two calls under way carry the same reference |
| Serialisability.SerialisableWithIndex | pkg/ledger/pgstore.go:34-34 | so with the index disjoint footprints alone give the service run one post at a time |
| Serialisability.SerialisableByLookUp | pkg/ledger/service.go:74-80 | and without it disjoint footprints and references of the calls under way do |
| Serialisability.OverlapPostsTwice | pkg/ledger/memstore.go:97-137 | over the in-memory store any two valid posts under one reference have an interleaving that commits both, and every balance moves by both |
| Serialisability.OverlapCorrupts | pkg/ledger/service.go:142-191 | two posts that read the same volumes and share a pair always leave a wrong total there |
| Serialisability.OverlapLosesUpdate | pkg/ledger/service.go:142-191 | for any two such posts that the store takes there is an interleaving of their store calls that does so |
| RevertProtocol.AlwaysSound | pkg/ledger/service.go:229-266 | every interleaving keeps references unique, reversals after their originals with swapped postings, and marks backed by reversals |
| RevertProtocol.AtMostOneReversal | pkg/ledger/pgstore.go:34-34 | under the unique index at most one reversal exists per transaction, and a marked transaction has one |
| RevertProtocol.FindRefuses | pkg/ledger/service.go:230-236 | over either store a call on a transaction that is marked, or not stored, stops at its first step and changes nothing |
| RevertProtocol.RetryCompletes | pkg/ledger/service.go:229-266 | from every reachable state a retry that runs alone ends with the transaction marked and reversed, posting nothing if the reversal was already there |
| RevertProtocol.RetryAmongOthers | pkg/ledger/service.go:229-266 | with any steps of other clients between its calls, a retry still ends with exactly one reversal, and with the mark unless another client posted the reversal between its look-up and its insert |
| RevertProtocol.UncheckedStoreRevertsTwice | pkg/ledger/memstore.go:97-137 | without the index two clients that look up before inserting move every balance by twice the reversal |
| RevertProtocol.SingleWithoutOverlap | pkg/ledger/memstore.go:97-137 | without the index, as long as no two calls on one transaction overlap, at most one reversal of each transaction exists |

## Left out

- HTTP adapters, routing, provider clients and process wiring (`pkg/provider`, `pkg/api`, `cmd`): they hold no money state.
- The older float ledger (`pkg/ledger/ledger.go`) and the compliance rules (`pkg/compliance/compliance.go`): the daemon does
  not use the first, and the second is a flat list of checks.
- Times, metadata and audit hashes: a timestamp never influences a balance; a log entry keeps only its ids, reference and
  posting count. Whether a transaction is marked is kept, the time of the mark is not.
- The 64-bit width of ids: ids are unbounded integers. Amounts are unbounded in the source as well.
- Arithmetic of `math/big`: only base-10 parsing and printing are modelled; a leading plus sign and leading zeros parse.
- Slices and returned pointers in the in-memory store are values, so callers that mutate a returned transaction are not
  covered. The SQL store's insert does work in place on the caller's arrays.
- Locks: class methods are whole calls. What happens between store calls is covered for posts and reverts only, by the
  interleaving models; overlapping wallet calls on one hold are not.
- Wildcards in a reconciliation policy's account query: the code treats the query as a literal address, and so does the model.
- Differences between ledger and provider asset names (`USD/2` and `USD`): assets are compared as strings, as in the code.
- Restarting the wallet service, which resets its counter and so reuses references.
- SQL beyond the tables and queries named above: connection handling, migrations, listing queries, metadata columns, and
  transaction isolation between sessions. Account rows are left out as well.
- Account listing, metadata updates, log listing, `GetWallet`, `GetHold` and `ListPolicies`: reads without arithmetic.
- MemStore.Store.ListTransactions: offsets are taken to be non-negative, and offset plus limit does not wrap around.
- MemStore.Store.InsertTransaction: the transaction list and the posting map hold equal copies; later edits through the caller's own slices are not modelled.
- LedgerService.Service.PostTransaction: the request's posting slice, which the source fills with ids in place, is a value here.
- LedgerService.Service.BuildMove: the source writes the same block out for source and destination; here it is one method called twice.
- WalletService.Service.ConfirmHold: where a stored Remaining were not an integer the source would dereference nil; the model returns an error there, and the hold laws show that no reachable hold is in that state.
- HoldLaws.HoldBalanceLaw: holds for callers that do not post to hold accounts, directly or as the other end of a transfer, and do not use the wallet service's references in other posts. Reverts are not restricted.
- WalletTotals.TotalLaw: holds for transfers and posts whose other ends lie outside the wallet addresses, with the same proviso on references. Reverts are not restricted.
- Reversals.BalanceCountsStanding: holds when no client uses a reference of the form `revert:<id>`; what happens otherwise is stated by LedgerRuns.RevertEffect and LedgerRuns.ForgedReference.
- EscrowLaws.EscrowOverdrawnIff: direct posts that use the escrow account in the settlement ledger are excluded; EscrowLaws.DirectPostOverdraws shows that they can overdraw it.
- Reconciliation.CorrectionsClose: the other account and the policy's account must be valid and distinct addresses, as the ledger demands of any transfer.
- PgStore.Store.InsertTransaction: amounts and volumes are integer texts; the numeric columns would also take decimals, which the service never produces, and refuse text that is no number.
- StoreAgreement.StoresAgree: about posts only; ids differ between the stores, so a revert by id is not the same call on both.
- Serialisability.OverlapLosesUpdate: about requests whose own keys do not collide and that do not repeat each other's reference where the store checks it; a colliding request is wrong without any overlap.
- RevertProtocol.AtMostOneReversal: other clients are taken not to use references of the form `revert:<id>`; the moves an insert carries are arbitrary there, as their totals play no part in the protocol.
