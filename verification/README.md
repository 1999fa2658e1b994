# Verification of the trading journal

A Dafny model of the journal's accounting and of the machinery that keeps an open page equal to the
server's word, with proofs of what they are for. `dafny verify dfyconfig.toml` checks all of it.

What is modelled, one group of modules for each part of the program:

- **The FIFO matcher** (`ios/Bagholder/Model.swift`): books of lots, partial closes, shorts, option
  rolls carried in pools, ticker replacements, inferred splits, transfers out, dust
  (`Trading`, `Lots`, `Matching`, and `FifoMatcher`, which changes a matcher object in place). Every
  change is also told to a history (`Ledger`). The proofs follow each lot and each fill through
  that history (`LotsProofs`, `Conservation`, `Spending`, `Runs`, `Leavings`, `Settlement`,
  `Fees`, `Overcharges`, `FeesWitness`), say which lots a fill comes to first and what becomes of the
  rest of it (`ClosingOrder`, `Splits`), and compare the matcher with what FIFO means (`Overlap`) and with the
  second pass that infers quantities and sides (`Inference`, `Quantities`, `Simulation`). `CashFlow` follows the
  cash of a whole run, and `Report` follows it on into the rows and lots a person is shown, rolled
  covers folded (`RollFold`). `Calendar` is the day numbers all of it is ordered by.
- **Writing the server's word into live objects** (`web/src/lib/live.svelte.ts`): objects and lists
  are things in a store, so that identity can be spoken of (`Documents`). `Reconcile` says what
  writing one document over another comes to, `Patches` what an edit at a path does, and `Live`
  does both in the store, in place. `Stream` is the numbered stream, its losses, and the server at
  the other end.
- **Account pools and the token refresh gate** (`ios/Bagholder/WSPull.swift`): `AccountPools`,
  `RefreshGate`.
- **Equity analytics** (`ios/Bagholder/ModelView.swift`): `Equity`.
- **Single-flight reads** (`web/src/lib/reads.svelte.ts`): `Reads`.
- **The book** (`rust/crates/book/src/clear.rs`, `rust/crates/book/src/fills.rs`,
  `rust/crates/core/src/order.rs`): `Unnamed`, `Orders`, `BookFills`.
- **Decimals as text** (`web/src/lib/dec.ts`): `Decimals`.

Money and quantities are exact reals, and the tolerance the matcher uses is a parameter, so that 0
gives the exact statements and any other value bounds what is lost. A method that changes state is
proved to do what a function of the old state says; what the program promises is proved of that
function.

Where the code falls short of what it or its comments promise, the code is modelled as it is, a
concrete case shows the shortfall, and the condition under which the promise is kept is proved. It is
exact, both ways, but where the item says otherwise:

- `closeRolled` takes a lot's units without taking its commission down (`FeesWitness.RollsChargeTwice`).
  A pass over a queue charges what its lots carry exactly when it scales it, or leaves no lot in part,
  or the part left carries none (`Fees.ChargedOnceIff`); over a run, a lot's commission is conserved
  exactly when no fill that buys back older contracts of a rolled chain stops partway through it
  while it carries one (`Overcharges.FeesConservedIff`).
- `foldOptionRolls` names the rows it drops by id. Rows that share one from the start, or come to share
  one when a fold renames its target, can be dropped with a cover they are not
  (`RollFold.SameIdsLoseMoney`, `RollFold.RenamedLosesMoney`). A fold keeps ids distinct exactly when
  it does not rename its target to another row's id (`RollFold.StaysDistinctIff`), and the covers
  folded are dropped, each for itself and no other row, exactly when at no fold another row has the
  cover's id or the target is renamed to an id that is dropped (`RollFold.DropsExactlyIff`). What the
  rows dropped so had made is then all that is lost (`RollFold.FoldConservesIff`).
- The two passes part where a multileg row rolls more than its contract and chain hold, and where a
  row, its own book and its chain's legs exhausted, buys back older contracts of a rolled chain
  (`Simulation.RollsPartThePasses`). They agree after every row exactly when no row does either
  (`Simulation.PassesAgreeIff`).
- The one-pass drawdown can miss the deepest fall once the index is negative on a day it looks at
  (`Equity.NegativeIndexMisses`). On every series it reports the least fall from the highest day so far
  (`Equity.DrawdownIsLeast`), and that is the deepest fall exactly when every fall to a day whose index
  is negative is matched by one from the highest so far (`Equity.DeepestIff`): one pass with a running
  highest index and a running lowest above 0 decides it. Where no such index is negative there is
  nothing to match (`Equity.DrawdownIsDeepest`).
- A refresh whose answer is lost on the way leaves a token the server has rotated away in the keychain,
  and the next caller posts it (`RefreshGate.LostGrantIsPosted`): a post is of such a token exactly when
  a grant before it was lost (`RefreshGate.StaleIffLost`).
- `absBelow` reads its limit without its sign (`Decimals.AbsBelowDecidesIff`).
- A cycle of contracts written on each other holds itself up when unnamed instruments are removed
  (`Unnamed.CycleStays`, `Unnamed.LeftIsReachedIff`).
- `book_fill` reads an order's last reading with no average as nothing booked. A price stated,
  withdrawn and stated again is booked twice (`BookFills.PriceReturns`, `BookFills.BookedOnceIff`).
  A fill read before the broker's id for the order is known never gives way to the broker's row
  (`BookFills.ReadFirstNamesNone`); one read after always names it (`BookFills.AnsweredNames`).
- `numbering` has the whole state asked for exactly when a message was lost and the first of its
  connection was not (`Stream.LossIsAskedIff`).
- The address of the page's connection states the versions held when it was opened, and the browser
  makes a dropped connection again with that address. A page that has taken a patch since can be told
  that the older version is the same, and holds the newer under it (`Stream.AgainIsWrong`): what it
  holds is then right exactly when the version held at the drop is the one the address states
  (`Stream.AgainRightIff`, versions being hashes of what they name).
- A connection opened anew before the whole state it asked for has come leaves a document that lost an
  edit as it is, under a version it does not have (`Stream.LostIsWrong`): it is right exactly when the
  edits lost make no difference to what the last one leaves (`Stream.LostEditsIff`), as where that
  one begins by setting over all the lost ones were of (`Stream.LostOverwritten`).
- A `set` that changes the key its path names a row by is not read back there
  (`Patches.ReadBackIff`).

## Model

| member | source | states |
|---|---|---|
| LotsProofs.TakeFaithful | ios/Bagholder/Model.swift:1202-1217 | Closing the lots at the head of a queue: what the recorded entries make of any lot, replayed from what it held, is what the queue holds of it after (units, cost, commission); no lot is dropped with more than the tolerance left, none twice, and none but lots of the queue is named |
| LotsProofs.TakeSpends | ios/Bagholder/Model.swift:1205-1221 | A fill's quantity and commission go to what it closes in proportion, and what is returned is the rest |
| LotsProofs.TakeLeaves | ios/Bagholder/Model.swift:1205-1221 | The loop stops only where it must: nothing the head lot offers and the fill still asks is left unmatched, and what is left lies between nothing and what was asked |
| Conservation.SplitKeepsCost | ios/Bagholder/Model.swift:1181-1190 | A split scales a lot's units, and keeps its units times price and its commission |
| Conservation.PutKeeps | ios/Bagholder/Model.swift:1110-1222 | Every change of one shelf of lots that is faithful to the history keeps the whole ledger true: each lot on its one shelf at most, each holding what its history says |
| Conservation.StepKeeps | ios/Bagholder/Model.swift:1229-1331 | So does every fill: a roll, a transfer out, an ordinary fill with its older contracts, replaced tickers, dust, opening or orphan |
| Runs.RunKeeps | ios/Bagholder/Model.swift:1229-1331 | After any number of fills in any order the history accounts for every lot on every shelf |
| Runs.RunSpends | ios/Bagholder/Model.swift:1229-1331 | After any number of fills each one taken is spent exactly, quantity and commission, its own residue and a transfer's excess counted (`Leavings.RunLeaves` bounds both); those to come, not at all |
| Leavings.RunLeaves | ios/Bagholder/Model.swift:1229-1331 | After any number of fills each one taken has left exactly what such a fill leaves of some part of it between none and all: a residue only within the tolerance, an excess only of a transfer out, dust only where the guard calls it so, a new lot, a row nothing matches, or, of a roll, a carried leg of what it closed |
| Leavings.ClosesAllItCan | ios/Bagholder/Model.swift:1297-1315 | An ordinary fill has something left beyond the tolerance only where its own book offers it nothing more to close and no roll carried a leg for it |
| Settlement.EveryLotIsAccounted | ios/Bagholder/Model.swift:1066-1367 | Over every run, rolls, splits, replacements and transfers included: each lot's history replays to what its book still holds; every lot carried in a pool is closed; what tolerance drops is at most the tolerance, once a lot |
| Settlement.EveryFillIsSpent | ios/Bagholder/Model.swift:1229-1331 | Over every run every fill's quantity and commission are what its slices and what it sent out bear and what it left; and what it left is exactly what such a fill leaves of the rest, a residue within the tolerance or an excess of a transfer out among it; only transfers out send anything |
| Settlement.EveryFillIsPlaced | ios/Bagholder/Model.swift:1229-1331 | So each fill but a transfer out equals what it closed, opened, left unmatched and let go as dust, to within the tolerance and exactly where that is 0; a transfer out is never placed beyond its quantity; and a roll carries forward exactly the units it closed |
| Settlement.CostIsConserved | ios/Bagholder/Model.swift:1177-1222 | The cost a lot opened at is the entry cost of its slices, what went out, what the tolerance dropped and what is open, splits or none |
| Settlement.UnitsAreConserved | ios/Bagholder/Model.swift:1202-1358 | So are the units of a lot no split touched |
| Overcharges.FeesConservedIff | ios/Bagholder/Model.swift:1115-1157 | Over every run a lot's commission is its slices' entry shares, what left with it and what it carries if and only if no fill buys back older contracts of its rolled chain and stops partway through this lot while it carries a commission |
| Settlement.OpenLotsAreHeld | ios/Bagholder/Model.swift:1359-1367 | The positions returned are exactly the lots still held that are big enough to show |
| Fees.FeesWithoutRolls | ios/Bagholder/Model.swift:1202-1222 | On runs with no roll every lot's commission is its slices' entry shares and what stays, and nothing is charged twice |
| Fees.ChargedOnceIff | ios/Bagholder/Model.swift:1121-1157 | What one pass over a queue charges its slices, with what went and what stays on the lots, is what the lots carried if and only if it scales what it leaves, or leaves no lot in part, or that lot carries none |
| FeesWitness.RollsChargeTwice | ios/Bagholder/Model.swift:1121-1157 | A sale, a roll and a buy-back of older contracts after which a commission of a lot is charged beyond what it was |
| Overlap.FifoIsOverlap | ios/Bagholder/Model.swift:1202-1331 | For every run with no tolerance, roll, split or replaced ticker, over any number of books, bought first or sold short first and however often a book turns, sales beyond what is held and coins sent out included: the slices matching fill k with fill j total exactly what k's interval of the units that entered j's book shares with j's interval of those that left |
| Overlap.BookHoldsTheRest | ios/Bagholder/Model.swift:1202-1331 | After such a run each book holds what entered and has not left, all of it one way |
| Overlap.OneWayCounts | ios/Bagholder/Model.swift:1202-1331 | Where a book is opened one way and never closed beyond what it holds, those intervals are of the units bought and the units sold, or of the units sold short and those bought back |
| Overlap.TakeShares | ios/Bagholder/Model.swift:1205-1217 | One fill takes from a queue laid end to end exactly the units of its own interval, as far as the queue goes, and leaves the queue laid from where it ended |
| ClosingOrder.NearestFirst | ios/Bagholder/Model.swift:1132-1158 | From any state: where a fill of a rolled chain changes the book of an older contract, every older contract of the chain that expires sooner, or the same day under an earlier key, has nothing of that direction at its head any more |
| ClosingOrder.CarriedFirst | ios/Bagholder/Model.swift:1121-1142 | It changes none but books of other contracts of its account, currency, underlying and right, once the chain has been rolled, and only when no leg carried forward is left for it |
| ClosingOrder.LegsOfTheChain | ios/Bagholder/Model.swift:1110-1131 | The legs it closes are those carried for its account, underlying and right, of the direction it closes |
| ClosingOrder.ReplacedInTurn | ios/Bagholder/Model.swift:1300-1308 | Of the replaced tickers' books a sale closes, a later one is come to only when each before it has nothing more to give |
| ClosingOrder.OnlyReplaced | ios/Bagholder/Model.swift:775-779 | It closes so only books of its account and currency whose symbol was removed by its day and has not traded since |
| ClosingOrder.StepsOwnAccount | ios/Bagholder/Model.swift:1229-1331 | No fill of any kind changes a book of another account or currency |
| ClosingOrder.SettledAs | ios/Bagholder/Model.swift:1310-1330 | What an ordinary fill leaves beyond the tolerance opens a lot of it where the row may open (a purchase or a contract unless it closes, shares sold only where it says so), at its price and day, with its share of the commission; else it is let go where a sale leaves rounding, or told as matched by nothing |
| ClosingOrder.ShownWhere | ios/Bagholder/Model.swift:1360-1364 | A lot is a position unless it is next to nothing, or coins worth under a dollar |
| Splits.SplitsAreTaken | ios/Bagholder/Model.swift:1177-1200 | The book touched restates each lot by the product of the splits due by the day, units up and price down, in whatever order they were found; those not due wait, exactly; and no other book, pool or symbol's splits change |
| FifoMatcher.MatchFifo | ios/Bagholder/Model.swift:1066-1367 | The whole run in place returns the closed slices, open lots and unmatched fills of the specified history, before they are sorted and rolls folded |
| FifoMatcher.Matcher.Process | ios/Bagholder/Model.swift:1229-1331 | One fill taken into the matcher in place is one step of the specification |
| FifoMatcher.Matcher.CloseAgainst | ios/Bagholder/Model.swift:1202-1222 | The loop over a queue's head, with the commission scaled or not, leaves books, slices and remainder as specified |
| FifoMatcher.Matcher.CloseCarried | ios/Bagholder/Model.swift:1110-1167 | Carried legs first, then the chain's older contracts, nearest expiry first, where the chain has been rolled |
| FifoMatcher.Matcher.Carry | ios/Bagholder/Model.swift:1246-1273 | What a roll closed is carried, what it found nothing for opens |
| FifoMatcher.Matcher.TakeSplits | ios/Bagholder/Model.swift:1177-1200 | The first book touched of an account and symbol takes the splits due by that day, whatever its currency, and the rest stay pending |
| FifoMatcher.Matcher.RollOutPools | ios/Bagholder/Model.swift:1336-1358 | Every lot left in a pool is closed at nothing, in order |
| Inference.InferZeroQtyOptionFills | ios/Bagholder/Model.swift:842-969 | The second pass over its own ledger, in place, resolves each fill as specified and touches nothing else of it |
| Inference.FirstClean | ios/Bagholder/Model.swift:832-840 | The search answers the least clean quantity within its bounds, or none when there is none |
| Quantities.UnstatedIsRead | ios/Bagholder/Model.swift:908-935 | An option row that states cash and no quantity: where the book holds what it closes and no later row of it states none, all that is open, and nothing stays open; where one does, the least quantity whose price is in cents or hundredths of them, never more than is open, and the rest stays open; where nothing is open, what it is alone. Its price is the cash over it, and none for an assignment |
| Quantities.StatedIsKept | ios/Bagholder/Model.swift:908-941 | A row that states its quantity keeps it; one that states neither quantity nor cash is all that is open where it says it closes |
| Quantities.OrdinaryIsPosted | ios/Bagholder/Model.swift:945-967 | An ordinary row takes from its own book; past that, beyond the tolerance and of a contract, from its chain; and what is then left beyond the tolerance is open where the row may open |
| Quantities.SideIsRead | ios/Bagholder/Model.swift:799-824 | An assignment and a short's expiry buy, another expiry sells, an exercise closes what the book holds one way only; a closing row says that it closes where the book holds what it would, else that it opens |
| Quantities.RollIsRead | ios/Bagholder/Model.swift:867-906 | A multileg row closes what its contract holds, short first, else what its chain carries more of; its quantity, where none is stated, is all the contract holds, or a part of contract and chain, or what it is alone; and the ledger takes it from contract and then chain and carries it on |
| Quantities.NeverMore | ios/Bagholder/Model.swift:826-843 | Of a row of some contracts at whole cents the least quantity that fits is never more than there were |
| Simulation.PassesAgree | ios/Bagholder/Model.swift:842-969 | On runs with no multileg row, split or replacement, after every row what the inference pass counts of each book, pool and direction is what the matcher holds, and no book holds both directions |
| Simulation.PassesAgreeIff | ios/Bagholder/Model.swift:842-969 | Over every journal, rolls included, with no split or replacement: the passes agree after each of the first n rows if and only if each of those rows keeps them together |
| Simulation.RollAgreesIff | ios/Bagholder/Model.swift:1234-1275 | From any state in which they agree, a roll keeps them so if and only if its contract's book and its chain's legs hold all it asks of its direction |
| Simulation.ContractAgreesIff | ios/Bagholder/Model.swift:1297-1330 | And any other row of a contract if and only if they do, or the fill past them reaches no older contract of a rolled chain that holds what it closes |
| Simulation.PassesAgreeAtTheEnd | ios/Bagholder/Model.swift:1202-1331 | And so at the end of the run |
| Simulation.RollsPartThePasses | ios/Bagholder/Model.swift:1234-1275 | Two multileg rows after which they disagree, and a book holds both directions |
| RollFold.FoldOptionRolls | ios/Bagholder/Model.swift:1375-1444 | The fold in place of rows and open lots, and the rows it returns, as specified |
| RollFold.FoldsIntoNearest | ios/Bagholder/Model.swift:1393-1440 | A cover folds into the candidate nearest in quantity, of those the earliest symbol, of those the first: of the closed short options of its account, currency and underlying, another contract, sold the day it was bought back; into the nearest open lot only where no row can take it; and nothing else is rewritten |
| RollFold.EighthPlace | ios/Bagholder/Model.swift:498-505 | A number of a trade's id is the nearest count of the eighth place |
| RollFold.FoldsKeep | ios/Bagholder/Model.swift:1393-1440 | After any number of covers: money less what is yet to drop is unchanged, and the next cover, if it folds, was not folded before and goes into a row neither folded nor marked to go, or an open lot, even where the cover was a target before |
| RollFold.FoldConserves | ios/Bagholder/Model.swift:1375-1444 | With ids distinct at the start and no fold that renames its target to another row's id, closed profit plus open short premium is unchanged, exactly the covers folded are dropped, and ids are distinct after |
| RollFold.DropsExactlyIff | ios/Bagholder/Model.swift:1439-1443 | Exactly the covers folded are dropped if and only if at each fold no other row has the cover's id and the target is not renamed to an id that is dropped |
| RollFold.FoldConservesIff | ios/Bagholder/Model.swift:1439-1443 | Where others are dropped too, what is lost is what they had made: the sum is unchanged if and only if the rows folds mark for another's id made nothing between them |
| RollFold.StaysDistinctIff | ios/Bagholder/Model.swift:1418-1425 | A fold keeps ids distinct if and only if it does not rename its target to the id of another row |
| RollFold.TellApartNeverCollides | ios/Bagholder/Model.swift:1418-1425 | Rows told apart by more than their entry price never collide, whatever is folded |
| RollFold.SameIdsLoseMoney | ios/Bagholder/Model.swift:1439-1443 | Two covers of one id, of which both go and one is folded |
| RollFold.RenamedLosesMoney | ios/Bagholder/Model.swift:1418-1443 | One contract sold at 1.00 and at 1.10 on a day, ids distinct: a fold of 10 into the first makes it the second, and what the second made is lost |
| CashFlow.CashIsKept | ios/Bagholder/Model.swift:1004-1367 | Over every run, rolls, splits, replacements, transfers and orphans included: the cash the fills moved (price times units times the contract's size, or a roll's stated cash, less commissions) is the profit of the slices, what the open lots have moved, and what the other entries of the history say: lots sent out at cost, residues, rows nothing matched, commissions forgone, and, with the other sign, commissions charged twice; and of each roll whatever it moved within the tolerance. Rolls close what their direction says, and a ticker becomes one of the same size |
| CashFlow.NothingLapses | ios/Bagholder/Model.swift:1246-1262 | Nothing is lost to a roll's tolerance where that is 0 or nothing rolls |
| CashFlow.StepKeepsCash | ios/Bagholder/Model.swift:1229-1331 | Each fill adds exactly its own cash to what the state and its history account for |
| CashFlow.ProfitIsCash | ios/Bagholder/Model.swift:1004-1035 | A slice's profit is the cash of its part of the lot and the cash of its part of the fill |
| Report.EverySliceIsFair | ios/Bagholder/Model.swift:1004-1043 | Every slice of every run says what it made, the difference of its prices over its units less its commissions; and of which fills: the day and direction its lot was opened with, and the contract, day and price of the fill of the same account that closed it |
| Report.ShownIsCash | ios/Bagholder/Model.swift:1359-1444 | What a person is shown adds up to the cash: with the slices as rows in any order and the covers folded in any order, the profit of the rows kept and the cash tied up in the lots shown are the cash of the fills, but for the commissions those lots carry, the lots too small to show, what `CashFlow.CashIsKept` says is neither, and the rows dropped for another's id |
| Calendar.CivilOfDays | ios/Bagholder/Model.swift:414-457 | The date of a date's day number is the date |
| Calendar.DaysFollow | ios/Bagholder/Model.swift:414-443 | The next day's number is the next number, through month ends, leap years and centuries |
| Calendar.DaysOrder | ios/Bagholder/Model.swift:414-443 | Day numbers order as dates do |
| Calendar.IsoOfDayNumber | ios/Bagholder/Model.swift:414-457 | A text that names a date is read back from its day number |
| Calendar.DayNumberOfIso | ios/Bagholder/Model.swift:445-457 | Every number in range is its text's |
| Calendar.TextOrderIsDayOrder | ios/Bagholder/Model.swift:414-466 | The order of texts is the order of days |
| Calendar.ShiftsCompose | ios/Bagholder/Model.swift:463-466 | Shifting by a then b is shifting by a + b; by nothing is the date |
| Reconcile.ByRowWhere | web/src/lib/live.svelte.ts:85-104 | Two lists are matched row by row exactly where the first entry of the table that spells their path, `*` for any step, names a field that tells the rows of each apart |
| Reconcile.OverSays | web/src/lib/live.svelte.ts:114-143 | A document written over another says what the source says: for any two, under any table of row keys |
| Reconcile.SameThing | web/src/lib/live.svelte.ts:114-143 | On any path whose lists are matched by key in both, what is there after is what was there written over: an object or list in both is the same one |
| Reconcile.OverTree | web/src/lib/live.svelte.ts:114-143 | The result still has each thing in one place |
| Reconcile.OverRefs | web/src/lib/live.svelte.ts:114-143 | It is made of the target's things and the source's and no other |
| Reconcile.SameStays | web/src/lib/live.svelte.ts:114-143 | Written over a document that says the same already, nothing changes, not even a place |
| Reconcile.RowGoes | web/src/lib/live.svelte.ts:125-143 | A row keyed in both lists is found under its key afterwards, the held row written into |
| Documents.KeysOfKeyed | web/src/lib/live.svelte.ts:94-105 | Rows have keys exactly when each has one and no two share it, and then they are those, in order |
| Live.Page.Reconcile | web/src/lib/live.svelte.ts:114-123 | In place: the store then holds the target written over, and nothing outside the target's own things was written |
| Live.Page.ReconcileRows | web/src/lib/live.svelte.ts:125-143 | The same for a list, matched row by row or written whole |
| Live.Page.Same | web/src/lib/live.svelte.ts:71-79 | Two values are the same exactly when they say the same |
| Live.Page.ApplyOps | web/src/lib/live.svelte.ts:41-69 | A whole patch in place: the store then holds the edited document, still with each thing in one place; only the document's own things were written; the ids returned are those of the row steps |
| Live.Page.ApplyOp | web/src/lib/live.svelte.ts:43-67 | One edit in place, in the one thing its path leads to |
| Live.Page.WalkTo | web/src/lib/live.svelte.ts:30-38 | Walking the store is walking the document it holds |
| Patches.ReadBackIff | web/src/lib/live.svelte.ts:57-66 | A set is read back at its path if and only if it keeps the key the path names its row by |
| Patches.SetReadsBackIff | web/src/lib/live.svelte.ts:57-66 | So of the edit: a `set` is read back at its own path if and only if it keeps that key |
| Patches.SetLeavesTheRest | web/src/lib/live.svelte.ts:57-66 | And leaves the other fields, or the other rows, of what it writes into |
| Patches.DelRemoves | web/src/lib/live.svelte.ts:57-62 | A `del` removes the field it names from the object there, the same object, and no other field |
| Patches.RowsInOrder | web/src/lib/live.svelte.ts:46-55 | A `rows` edit leaves the list at its path, the same list, with exactly the rows named in that order |
| Patches.SetOver | web/src/lib/live.svelte.ts:41-69 | A set over a thing leaves nothing of an edit made before of that thing or within it, where the edit leaves the keys of the rows it goes through |
| Patches.Elsewhere | web/src/lib/live.svelte.ts:41-69 | An edit changes nothing on any path that parts from its own |
| Patches.OnTheWay | web/src/lib/live.svelte.ts:41-69 | What is on the way is the thing it was, with the rest of the edit made in it |
| Patches.OrderIsKept | web/src/lib/live.svelte.ts:46-55 | A rows edit naming rows held or added leaves exactly the keys named, in that order, held rows the same rows |
| Patches.EditTree | web/src/lib/live.svelte.ts:41-69 | An edit that brings new things leaves each thing in one place |
| Patches.EditHolds | web/src/lib/live.svelte.ts:41-69 | Writing the one thing the path leads to is the edit of the whole document |
| Patches.EditSays | web/src/lib/live.svelte.ts:41-69 | An edit reads only what a document says: so the server's patch of its document patches the page's |
| Stream.Numbering.Seen | web/src/lib/live.svelte.ts:171-180 | A gap is called exactly where a number is neither 1, nor the first seen, nor the next |
| Stream.Connection.On | web/src/lib/live.svelte.ts:413-483 | Each handler in place: hello, snapshot, same, patch, as specified; the whole state is asked for on a gap once hello was said |
| Stream.SnapshotWritesInto | web/src/lib/live.svelte.ts:413-483 | A document sent whole is written into the one held: along every path both have, what is there is the thing that was, and all of it says what came |
| Stream.StaleWhere | web/src/lib/live.svelte.ts:405-412 | A connection the browser makes again is stale exactly where a document its address states is held at another version; one opened anew states what is held |
| Stream.RunsAreValid | web/src/lib/live.svelte.ts:408-483 | Over every run of sending, losing, taking, showing, leaving, opening a connection and the browser making it again by itself with the address it had, each document not lost track of says what the server's does at the version held, which is the version the server takes it to be at where it takes it to be at one |
| Stream.HeldIsTheServers | web/src/lib/live.svelte.ts:171-180 | While each connection's first message came and no gap was called, every message up to the last was taken; and every document held at a version is the server's of it, where besides no connection was made again stating another version than was held |
| Stream.CleanIsTheServers | web/src/lib/live.svelte.ts:408-483 | And whatever was lost, so is a document sent whole since, and one that nothing was lost of and whose version the address states |
| Stream.LossIsAskedIff | web/src/lib/live.svelte.ts:413-417 | The whole state is asked for as a message arrives if and only if one before it was lost and the connection's first was not |
| Stream.SnapshotRestores | web/src/lib/live.svelte.ts:445-463 | A document then sent whole is the server's again |
| Stream.SameLeavesIt | web/src/lib/live.svelte.ts:464-472 | A connection made again, opened anew or not, answered that a document is the same, leaves what is held, under the version answered |
| Stream.AgainRightIff | web/src/lib/live.svelte.ts:408-431 | After the browser makes the connection again by itself and is answered that a document is the same, what was the server's still is if and only if the version held at the drop is the one the address states, versions being hashes of what they name |
| Stream.AgainIsWrong | web/src/lib/live.svelte.ts:408-431 | A run from the start with nothing lost or asked for that ends holding the newer document under the older version |
| Stream.LostEditsIff | web/src/lib/live.svelte.ts:413-483 | After edits are lost, a later one taken and the connection opened anew before the whole document comes, what is held is the server's of its version if and only if the edits lost make no difference to what the last leaves |
| Stream.LostOverwritten | web/src/lib/live.svelte.ts:413-483 | So it is right wherever the later edit begins by setting over all that the lost ones were of |
| Stream.LostIsWrong | web/src/lib/live.svelte.ts:413-483 | A run from the start that ends holding, under a version, what no version says |
| AccountPools.FifoPoolIds | ios/Bagholder/WSPull.swift:2197-2231 | Each account's pool is the least id of those it is joined with, through links and shared nicknames, directly or not; and exactly the accounts known have one |
| AccountPools.RootIsLeast | ios/Bagholder/WSPull.swift:2208-2212 | In a forest that joins what is linked and nothing else, every root is that least id |
| AccountPools.HalvedKeepsRoot | ios/Bagholder/WSPull.swift:2199-2207 | Halving a path keeps every root |
| AccountPools.Pools.Find | ios/Bagholder/WSPull.swift:2199-2207 | Finding a root, halving on the way, ends and answers the root |
| AccountPools.Pools.Union | ios/Bagholder/WSPull.swift:2208-2212 | Joining two sets hangs the greater root below the lesser and changes no other set |
| RefreshGate.GateIsSafe | ios/Bagholder/WSPull.swift:1070-1106 | Under every interleaving at most one caller is inside; who arrived is who left, is inside or waits, in that order |
| RefreshGate.RefusedIsNotPostedAgain | ios/Bagholder/WSPull.swift:1089-1106 | A token refused as invalid_grant is never posted again while the keychain holds it |
| RefreshGate.StaleIffLost | ios/Bagholder/WSPull.swift:1089-1150 | Under every interleaving a post is of a token already rotated away if and only if a grant before it was lost on the way |
| RefreshGate.NoRotatedTokenIsPosted | ios/Bagholder/WSPull.swift:1089-1150 | So where every answer arrives, with a new refresh token or without, no caller posts a token already rotated away |
| RefreshGate.LostGrantIsPosted | ios/Bagholder/WSPull.swift:1136-1150 | Where one is lost, the next caller does |
| RefreshGate.NoPostUntilGranted | ios/Bagholder/WSPull.swift:1089-1150 | Under every interleaving no caller posts a token refused while the keychain held it before a grant comes |
| RefreshGate.FailedIsPostedAgain | ios/Bagholder/WSPull.swift:1089-1150 | After a plain failure the caller that comes back posts the same token |
| RefreshGate.InvalidIsNotPostedAgain | ios/Bagholder/WSPull.swift:1089-1150 | After it was refused as invalid, it does not |
| RefreshGate.Actor.Enter | ios/Bagholder/WSPull.swift:1074-1077 | A caller goes in if no one is, else waits last |
| RefreshGate.Actor.Refuse | ios/Bagholder/WSPull.swift:1081 | A refused token is remembered, and who is in the gate and who waits stay |
| RefreshGate.Actor.Leave | ios/Bagholder/WSPull.swift:1078-1080 | Leaving lets the first waiter in, the gate staying busy, or frees it |
| Equity.PairedFlows | ios/Bagholder/ModelView.swift:332-352 | The array filled in place gives each day its own change or yesterday's, by the stated rule |
| Equity.LandsWhereShown | ios/Bagholder/ModelView.swift:332-352 | Each deposit lands on the day the equity shows it, its own or the next, where the market moves under half of it about then |
| Equity.IndexIsTheMarkets | ios/Bagholder/ModelView.swift:357-380 | So on such a series the index is the chain of the market's own daily returns, whenever the money came and showed |
| Equity.StillMarket | ios/Bagholder/ModelView.swift:357-390 | And where the market stands still it is 1 on every day, and there is no drawdown, whatever is paid in and drawn out |
| Equity.EveryFlowLands | ios/Bagholder/ModelView.swift:332-352 | Every change counted lands once, on its own day or the next |
| Equity.FlowsSum | ios/Bagholder/ModelView.swift:332-352 | With every deposit stated and no tolerance the flows sum to the last deposit less the first |
| Equity.FindDrawdown | ios/Bagholder/ModelView.swift:357-390 | The one pass is the specified sweep, and nothing on an empty series |
| Equity.DrawdownIsLeast | ios/Bagholder/ModelView.swift:357-390 | On every series what it finds is the least fall from the highest day so far to a day the loop looks at, is the first so deep, and is told with its days and amount; or there is none |
| Equity.DeepestIff | ios/Bagholder/ModelView.swift:357-390 | On every series it is the deepest fall between any two days the loop looks at if and only if every fall to a day whose index is negative is matched by one from the highest day so far |
| Equity.DrawdownIsDeepest | ios/Bagholder/ModelView.swift:357-390 | So it is where the index is not negative on any day the loop looks at, and where every day's factor is positive |
| Equity.NegativeIndexMisses | ios/Bagholder/ModelView.swift:369-388 | A series on which it reports -1.25 and a fall of -1.5 is missed |
| Reads.RunsAreValid | web/src/lib/reads.svelte.ts:107-160 | The invariant of flights, readers, counts and memory, under every interleaving of reads, aborts, answers and deliveries |
| Reads.SingleFlight | web/src/lib/reads.svelte.ts:118-143 | No two requests in the air are of one question, and each has a reader that stays |
| Reads.StoppedIff | web/src/lib/reads.svelte.ts:146-154 | A request is stopped if and only if every reader of it gave a signal that fired and left before the answer |
| Reads.NewerStays | web/src/lib/reads.svelte.ts:130-153 | In every run the request registered for a question stays so until it is itself answered, or stopped with none of its own readers staying: no late answer or late leaver of another removes it |
| Reads.AsksOnce | web/src/lib/reads.svelte.ts:115-143 | A request goes out exactly when the question is not remembered, not in the air, and its asker is still there |
| Reads.IdleAtZero | web/src/lib/reads.svelte.ts:49-55 | The count is of the page's own unanswered requests, and waiters go on exactly when it is zero |
| Reads.MemoryIsWhole | web/src/lib/reads.svelte.ts:115-135 | What memory gives is a whole, accepted answer to that question, young enough; a failure never |
| Reads.WholeIsRemembered | web/src/lib/reads.svelte.ts:128-137 | A whole answer is given from memory for as long as its asker takes it, counted from when it was asked; one that failed, is not whole or final, or is of a live route, is not kept and changes nothing remembered |
| Reads.LiveIsAsked | web/src/lib/reads.svelte.ts:47-47 | A question of a live route is never answered from memory |
| Reads.AskedAgain | web/src/lib/reads.svelte.ts:184-186 | Asked again, the route's questions, or all, are asked of the server; what is remembered of other routes stays |
| Reads.Page.Read | web/src/lib/reads.svelte.ts:107-160 | Reading in place, as specified, and how the reader is answered |
| Reads.Page.Abort | web/src/lib/reads.svelte.ts:146-154 | A signal fires: every reader on it leaves, one after another |
| Reads.Page.Answered | web/src/lib/reads.svelte.ts:128-137 | An answer in place: waiters let go at zero, the registration removed only if its own, a whole answer remembered |
| Reads.Page.AskAgain | web/src/lib/reads.svelte.ts:184-186 | Exactly what was asked under the prefix, or all, is forgotten |
| Unnamed.Book.ClearUnnamed | rust/crates/book/src/clear.rs:254-290 | The rounds end with no instrument unnamed; what is left is the largest part that supports itself, with the terms and rows among it; and it is what is reached from the directly named if and only if every cycle of contracts is |
| Unnamed.LeftIsReached | rust/crates/book/src/clear.rs:254-290 | Where option terms are acyclic it is exactly what is reached, contract to underlying |
| Unnamed.LeftIsReachedIff | rust/crates/book/src/clear.rs:254-290 | In general it is if and only if every cycle of contracts is reached |
| Unnamed.CycleStays | rust/crates/book/src/clear.rs:254-290 | A contract written on itself stays, named by nothing |
| Orders.OnlyRises | rust/crates/core/src/order.rs:365-433 | Over any log from any point on: the filled quantity never falls, the average changes only as it rises, the broker's id stays, and an ended order stays ended but for a fill that overtook its cancel or expiry |
| Orders.ReadingStands | rust/crates/core/src/order.rs:363-433 | A reading of an order on its way stands as read, state, quantity and average; one that says less has filled, or contradicts itself, changes nothing |
| Orders.EndStands | rust/crates/core/src/order.rs:363-433 | An order that has ended moves only to filled, from cancelled or expired, and fills more only by a reading that says its end again, or open, or filled |
| Orders.MovesAsTold | rust/crates/core/src/order.rs:287-358 | Every other move is made exactly in the states it may be made in, leads where it leads, and changes the state alone |
| Orders.AnswerNamesIt | rust/crates/core/src/order.rs:296-320 | The broker's answer names the order, and sets it working where it was not known to be there |
| Orders.WrittenIsSound | rust/crates/core/src/order.rs:222-433 | Whatever follows, an order written here has filled nothing before the broker has it, and something where its state says so |
| BookFills.Telescopes | rust/crates/book/src/fills.rs:127-202 | From any order, written here or found already placed, over any log of readings the booked quantities and cash are what last filled at a stated average, less what was at the start, and what a returning price books twice |
| BookFills.BookedOnceIff | rust/crates/book/src/fills.rs:130-136 | They are exactly what last filled at a stated average if and only if no price was stated, withdrawn and stated again; and the cash then is it, at that average, times the size |
| BookFills.FillsAreTheOrder | rust/crates/book/src/fills.rs:127-202 | Where every reading that states a fill states its average, the fills are the order's filled quantity at its average |
| BookFills.PriceReturns | rust/crates/book/src/fills.rs:130-136 | Three readings of an order of ten that book thirteen |
| BookFills.BuysPay | rust/crates/book/src/fills.rs:127-202 | The cash of its fills is that quantity at that average, times the size, out for a purchase and in for a sale |
| BookFills.FillIsPriced | rust/crates/book/src/fills.rs:127-163 | A fill booked is what more has filled, at what the order then came to less what it came to before, over it |
| BookFills.AnsweredNames | rust/crates/book/src/fills.rs:187-202 | Once the broker's id is known, every fill names it |
| BookFills.ReadFirstNamesNone | rust/crates/book/src/fills.rs:187-213 | One read before never does |
| BookFills.Rounded | rust/crates/book/src/fills.rs:161-163 | A unit's price is a whole number of twelfth places, within half of one of the exact price, a tie to the even one |
| BookFills.Book.WriteOrder | rust/crates/book/src/orders.rs:99-141 | An order is kept, with nothing filled and nothing booked, if and only if its quantity is positive and its id is new |
| BookFills.Book.OrderEvent | rust/crates/book/src/orders.rs:144-180 | An event told to the book moves its order and appends what it newly fills under a new key, nothing where the broker has its row; so the order's live fills stay those of its log, and no other order's change |
| BookFills.Book.FillsGiveWay | rust/crates/book/src/fills.rs:206-224 | Exactly the live fills that name an order whose row is live are superseded; the count is of such orders; no live fill then stands beside its row, and again there is nothing to do |
| Decimals.CmpIsOrder | web/src/lib/dec.ts:61-69 | Comparing texts is comparing the values they write, for any number of digits |
| Decimals.CmpIsPreorder | web/src/lib/dec.ts:61-69 | It is a total preorder |
| Decimals.SignIsSign | web/src/lib/dec.ts:45-49 | The sign read is the value's, a negative zero being zero |
| Decimals.NegNegates | web/src/lib/dec.ts:72-74 | Turning the sign negates the value, and twice is the text again |
| Decimals.AbsBelowIsBelow | web/src/lib/dec.ts:82-84 | It decides whether one magnitude is below the other |
| Decimals.AbsBelowDecidesIff | web/src/lib/dec.ts:82-84 | It decides whether the magnitude is below the limit if and only if the limit is not negative, or not nearer to zero than the value |

## Left out

- The matcher's round-trip ids, flags, labels, names, hold days and the text of notes: they ride along and decide no quantity.
- The final sort of closed slices and the sort of fills before the run: the fills are taken in any order, which proves more, and the order returned is not stated.
- String keys of books, pools and splits are records of their parts; the five closing loops are one, with a mode for what each does with the commission, the symbol and the slice.
- Fills and activities are values: the price and side a roll writes into its activity are passed on instead.
- The inputs of the matcher that other code works out of text (sides, contracts, split ratios, ticker replacements, folded distributions) are given.
- FifoMatcher.MatchFifo: stops before the closing sort and the fold of rolls; `Report` makes a row of each slice, and takes the rows in any order and the covers in any order.
- Report.ShownIsCash: a row's account is one name, where the source keeps an id and a nickname.
- Overlap.FifoIsOverlap: takes a tolerance of 0, and no roll, split or replaced ticker.
- RollFold.FoldConserves: takes the covers in any order, where the source sorts them.
- Inference.InferZeroQtyOptionFills: whether raw text spells opening or closing is given with each row.
- Simulation.PassesAgreeIff: takes a tolerance of 0, and no split or replaced ticker.
- Yearly returns, deposits and values by day, benchmarks and annualised rates: the sums are easy members, the powers have no exact statement.
- Rounding of floating point: reals are exact, and the tolerance is a parameter.
- The text of day numbers outside 0000-01-01 to 9999-12-31, and the day-number cache.
- Account nicknames and ids are taken as trimmed; the order a dictionary is walked in is any order.
- The keychain is one cell, the token endpoint a step that grants, refuses, fails or is lost; cookies and headers are not modelled.
- Field names every JavaScript object inherits (`constructor` and the like), steps into text or by index into a list, a `set` below something that is no object, and a null row in a list ordered by key: the documents have none.
- A document's fields are unordered; `changed`, the kept copies, restarts, priming and refused documents are not modelled.
- Stream.RunsAreValid: a document left and shown again on one connection starts empty, or at the version the stream has brought it to, and a document's parameters do not change.
- The server: any server whose patches turn the document it last sent into the next; how it finds them is not modelled.
- Live.Page.ApplyOps: takes a patch whose new rows and values are things of their own, as parsed text has them, and whose orders name each row once.
- The browser's copies of answers, `recall` and `remember`, and the text of a question's address: a question is its route and the rest.
- The other deletes of the clearing (accounts, connections, issuers, settings), and which tables name an instrument: the named are one set, and the rows that go with an instrument another.
- Orders' reasons and codes, brackets, the order log's text, and what the tables of records keep of revisions.
- Checked arithmetic that overflows, and the exact long division behind a rounded price: `BookFills.Rounded` says what it comes to.
- The size of what an order trades is given with each event, as the book then knows it.
