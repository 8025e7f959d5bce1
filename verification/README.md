# A model of the Landlord robot client

The repository is a client that plays the card game Dou Dizhu (Landlord) as a robot.  This project
models its card engine, the robot player built on it, and the connection side that drives the
player, and proves what they keep, conserve and compute.

**Cards.**  A seat's cards are a list of card numbers; most of the engine works on *rank counts*, an
array of how many cards of each rank 3..2 and joker are there.  A *hand* is a kind with a key rank, a
length and kickers.  The engine

- *prints* a hand into rank counts and *classifies* rank counts as a hand (`Printer`, `Classifier`);
- *splits* rank counts into hands in five ways, each a pipeline of in-place extraction stages: bombs,
  trio chains, solo chains (take, extend, merge, trim twice), pair chains, single ranks, and kickers
  given to trios at the end (`Singles`, `Runs`, `SoloChains`, `Kickers`, `Splitters`);
- *searches* rank counts for higher hands and their kickers, and rates hands (`HigherSearch`,
  `FindKicker`, `WingedAnswers`, `ChargeHand`, `Control`).

**Player.**  `RobotAI.OGLordRobotAI` is the stateful player: cards held, counts noted for each seat,
the hand on the table, the split.  Level 0 is modelled in full; at other levels the hand a strategy
picks is arbitrary.  The pieces compose into one statement (`Sending.LevelZeroIsSound`, and
`LevelZeroRuns.LevelZeroGameIsGood` over a whole game with refusals): what the robot sends is made of
cards it holds, is recognised as what it was meant to be, and beats the table; it passes only if its
split has nothing higher; and the counts it notes stay those of the cards it holds.

**Connections.**  The idle timing wheel, the pools of robots, the length-prefixed frame loop, the
login and game status, and the round-robin dispatcher of the old client are state machines
(`TimingWheel`, `RobotPools`, `Frames`, `RobotStatus`, `Dispatcher`); `IdleConnections` joins the wheel
and the pools.

Code that works in place is a method over an array or an object, proved equal to a specification
function; what the code promises is then proved about that function.  *Legal counts* means up to four
of a rank, up to one of each joker and at most 20 cards.

## What the code does, where one might expect otherwise

- Pair chains debit one rank too many (`new_robot_client/src/AIUtils.cpp:359`).  Counts are signed, and
  the loss is stated exactly: `Splitters.SplitForgets`, with `Splitters.PairChainForgetsACard`.
- The high-side trim of a solo chain cuts as many ranks as were counted on the low side
  (`new_robot_client/src/AIUtils.cpp:496`).  Exactly one shape of input ends up with four ranks; it needs
  19 cards; and no level-0 lead ever picks it: `ShortChains.SplitEmitsFourIff`,
  `ShortChains.NineteenCardsFail`, `ShortChains.NeverLedWithFour`.  But rating a split that holds it reads
  before the table of chain lengths (`new_robot_client/src/AIUtils.cpp:161`):
  `ShortChains.RatedInTableIff`.
- The classifier does not look for gaps in solo and pair chains
  (`new_robot_client/src/AIUtils.cpp:1443-1457`): `Classifier.PrintUndoesGetHand` is an equivalence with
  the absence of gaps, and `Classifier.HoleIsReportedAsChain` shows a gap.
- The kicker search assigns a hand type inside a condition
  (`new_robot_client/src/AIUtils.cpp:1086`), so a trio chain with pair wings is answered with solo wings.
  It is the only hand whose answer does not beat it, but for the nuke, which gets no answer on legal
  counts: `HigherSearch.AnswerBeatsIff`, with `WingedAnswers.PairWingsAreNotBeaten`.
- The ranks that fill up the kickers of a chain are not compared with those found before
  (`new_robot_client/src/AIUtils.cpp:1124-1137`), so one card may be offered twice:
  `WingedAnswers.SolidIff`, with `WingedAnswers.OneLeftOfferedTwice`.  For trios the search is exact:
  `WingedAnswers.TrioSearchExact`.
- A four with two is answered with kickers that are never set, and the driver prints every answer
  (`new_robot_client/src/OGLordRobotAI.cpp:2306-2357`), which reads them:
  `WingedAnswers.AnswerPrintableIff`.
- `getHighestTrio` returns the lowest trio (`new_robot_client/src/AIUtils.cpp:2022-2032`):
  `ChargeHand.LowestTrioOverrates`.  `getHighestSoloChain` leaves a wrong start behind if there is no
  chain, but the charge test asks it only if there is one.
- A level-0 robot leads with the lowest of the first hands of each kind, and a nuke is listed before lower
  bombs: `LevelZero.LeadIsLowestIff`, with `LeadOrder.NukeLedBeforeBomb`.
- The number of solos of a split is compared but never counted
  (`new_robot_client/src/AIUtils.cpp:717-777`), so the choice between kinds 4 and 5 is by the lowest solo
  alone: `Splitters.SortHandsLordOnly1Card`.
- The retry of a lead does not put the first selection back
  (`new_robot_client/src/OGLordRobotAI.cpp:284-290`): `Sending.LeadConservesIff`, with
  `Sending.LeadLosesCards`; level 0 never needs it.
- Each failure signal for one request puts its cards back once more: `LevelZeroRuns.FailuresAgreeIff`.
- A frame that has only partly arrived is not waited for: `Frames.PartialFrame`.
- Resuming a broken game moves to a status that comes earlier in the enumeration, so the order used for
  progress is not the enumeration's: `RobotStatus.OnlyResumingLowersOrdinal`.
- In a match room a game result alone puts a robot into a game: `RobotStatus.GamesAreEarnedIff`, with
  `RobotStatus.MatchResultSkipsLogin`.
- A close by the server leaves the connection's buffer pointer set, so a delete that reaches the
  connection object afterwards may list its robot twice.  `RobotPools.HandleSoundIff` tells exactly which
  events are harmless.  The object leaves the connection table at the close
  (`new_robot_client/src/TcpEventServer.cpp:113-124`), so only a delayed message can keep it for the
  wheel to find: it would have to be pending for about 30 ticks of ten seconds, while the configured delays
  are 3 and 6 seconds (`new_robot_client/configure/robot.conf:29-30`).  The model does not exclude that:
  `IdleConnections.IdleRobotsReturn` is an equivalence with every tick being harmless, and
  `IdleConnections.StaleRunBreaks` shows a run with one that is not.  Such a delete also frees the buffer
  a second time (`new_robot_client/src/TcpEventServer.cpp:57` after line 120), so what the original does
  from there on is not defined; the lists are only what the model makes of it.

## Model

| member | source | states |
|---|---|---|
| `Sending.LevelZeroIsSound` | new_robot_client/src/OGLordRobotAI.cpp:241-305 | Level-0 play end to end, for every hand of cards, every winning split and every table: cards held before = cards kept + cards sent; a lead is the lowest among the first hands of all kinds of the split, recognised as itself; an answer beats the table and is a hand of the split; a pass happens exactly when no hand of the split beats the table |
| `LevelZeroRuns.LevelZeroGameIsGood` | new_robot_client/src/RobotTask.cpp:654-948 | Over a whole game of level-0 turns, each either noted as sent or refused once and replaced by another play: every single turn is a sound lead, answer or justified pass, and after every turn the noted own counts are those of the cards held |
| `Sending.AnswerIsSafe` | new_robot_client/src/OGLordRobotAI.cpp:276-300 | Whatever hand any strategy picks, an answer conserves the card multiset and is empty, or not recognisable, or strictly beats the table |
| `Sending.LeadConservesIff` | new_robot_client/src/OGLordRobotAI.cpp:284-290 | A lead keeps every card iff the first choice was recognised or took no card: the retry does not put the first selection back |
| `Sending.LeadLosesCards` | new_robot_client/src/OGLordRobotAI.cpp:284-290 | Counter-example: with 19 concrete cards each of the three splits holds the chain of four, and leading with it loses its cards |
| `Sending.LevelZeroConserves` | new_robot_client/src/OGLordRobotAI.cpp:241-305 | Level 0 conserves the cards at every turn, leading or answering, even with none left |
| `Sending.LevelZeroLeads` | new_robot_client/src/OGLordRobotAI.cpp:526-550 | Whatever a seat with at least one card holds, the lowest among the first hands of all kinds of its split is sent at the first attempt and recognised as that very hand; the retry is never needed |
| `Sending.LevelZeroAnswers` | new_robot_client/src/OGLordRobotAI.cpp:552-592 | The answer is empty only if no hand of the split beats the table; else it is a well-formed hand of the split that does, recognised as itself |
| `Sending.SplitHandsRecognised` | new_robot_client/src/AIUtils.cpp:588-688 | A hand any of the five splits emits is recognised as itself - type, key, length, kickers - iff it is not a solo chain of four; with at most 18 cards there is none |
| `Sending.PlayedIsOnTable` | new_robot_client/src/AIUtils.cpp:1385-1520 | Every play the classifier recognises is a hand the level-0 results allow on the table |
| `Sending.GuardDecides` | new_robot_client/src/OGLordRobotAI.cpp:276-300 | A well-formed hand held in full passes the final guard, and goes out as itself, iff it beats the table; otherwise nothing goes out |
| `Sending.NothingGoesOutIff` | new_robot_client/src/OGLordRobotAI.cpp:276-300 | An answer comes to nothing iff it took no card, or is recognised and does not beat the table; else the cards chosen go out |
| `Sending.TakeHandConserves` | new_robot_client/src/OGLordRobotAI.cpp:620-641 | Taking out any printable hand loses and doubles no card, and takes at most four of a rank |
| `ShortChains.NeverLedWithFour` | new_robot_client/src/OGLordRobotAI.cpp:526-550 | The hand a split of kind 1, 2 or 3 leads with is never the unrecognisable chain of four, whatever is held |
| `ShortChains.FourUnderPairs` | new_robot_client/src/AIUtils.cpp:465-628 | A solo chain shorter than five in such a split is always 7-8-9-T, and beside it lies a pair chain that starts at the 3 or the 4 |
| `Classifier.GetHandUndoesPrint` | new_robot_client/src/AIUtils.cpp:1385-1520 | Reading the printed counts of a well-formed hand gives the hand back: type, key, length and kickers |
| `Classifier.PrintUndoesGetHand` | new_robot_client/src/AIUtils.cpp:1385-1520 | For every legal count array that is recognised: the card totals agree, and printing what was recognised gives the array back iff the hand is no solo or pair chain read over a gap |
| `Classifier.RecognisedIff` | new_robot_client/src/AIUtils.cpp:1385-1520 | Exactly what is recognised, of legal counts: the prints of well-formed hands, and single ranks, five or more, or pairs, three or more, up to the ace, whether in a row or not |
| `Classifier.EvenlyIsChain` | new_robot_client/src/AIUtils.cpp:1443-1457 | Such single ranks are read as a solo chain, such pairs as a pair chain, from the lowest rank on and as long as there are ranks, gaps or not |
| `Classifier.HoleIsReportedAsChain` | new_robot_client/src/AIUtils.cpp:1443-1457 | Counter-example: 3-4-5-6-8 is reported as the solo chain 3..7, whose cards are not there |
| `Classifier.ShortSoloChainIsLost` | new_robot_client/src/AIUtils.cpp:1455-1457 | A solo chain of two to four cards is read as nothing, and one card as a solo: never as a chain |
| `Classifier.ComputeHand` | new_robot_client/src/AIUtils.cpp:1385-1520 | The imperative classifier - joker test, four buckets, decision tree - equals the specification function the inverse lemmas are about |
| `Classifier.FillBuckets` | new_robot_client/src/AIUtils.cpp:1385-1420 | After the rank loop bucket k lists, ascending, exactly the ranks that hold k + 1 cards |
| `Printer.HandToPointsArray` | new_robot_client/src/AIUtils.cpp:1674-1748 | The in-place printer leaves exactly the specified array, whatever was in it before |
| `Printer.PrintIsAt` | new_robot_client/src/AIUtils.cpp:1674-1748 | On shaped hands no write of the printer hides another: each entry is body plus kickers counted with multiplicity |
| `Printer.PrintedSum` | new_robot_client/src/AIUtils.cpp:1674-1748 | The printed array holds as many cards as the hand reports |
| `Printer.PrintBounded` | new_robot_client/src/AIUtils.cpp:1674-1748 | Whatever printable hand, every printed entry lies in 0..4, so the result can be classified |
| `Hands.HandCountIsSum` | new_robot_client/src/AIUtils.cpp:1812-1859 | The card count of a hand is the number of cards it stands for, rank by rank |
| `Hands.HigherIsStrictPartialOrder` | new_robot_client/src/AIUtils.cpp:1528-1563 | Beating is irreflexive, asymmetric and transitive on all hands |
| `Hands.HigherIff` | new_robot_client/src/AIUtils.cpp:1528-1563 | A hand beats another iff it has the higher power - nuke over bomb over all else - or is of the same kind, of one length if a chain, and has the higher key; a nuke is never beaten |
| `Hands.IncomparableKinds` | new_robot_client/src/AIUtils.cpp:1528-1563 | Two hands that are neither bomb nor nuke are comparable iff they have one kind, different keys and, if chains, one length |
| `Cards.CardVecToPointArr` | new_robot_client/src/AIUtils.cpp:53-60 | The in-place count of a card list is the rank count of the list |
| `Cards.CardsOfRank` | new_robot_client/src/AIUtils.cpp:15-27 | The cards of a rank are one of each suit, r, 13 + r, 26 + r and 39 + r; card 52 is the black joker and 53 the red one |
| `Cards.CountsOfMultiset` | new_robot_client/src/AIUtils.cpp:53-60 | Counts depend on which cards are held, not on their order |
| `GameBook.DeckIsFull` | new_robot_client/src/AIUtils.cpp:15-27 | The 54 card numbers count to four of each rank and one of each joker |
| `Singles.GetBomb` | new_robot_client/src/AIUtils.cpp:258-281 | Bombs taken in place are the nuke, if both jokers are there, and the ranks held four times; exactly these counts are cleared |
| `Singles.BombsConserve` | new_robot_client/src/AIUtils.cpp:258-281 | At every rank bombs plus remaining counts are the counts before; no four of a kind and no nuke is left, and no count goes negative |
| `Singles.GetTrio` | new_robot_client/src/AIUtils.cpp:283-297 | Trios taken in place are the ranks held three times, ascending; exactly these counts are cleared |
| `Singles.TriosConserve` | new_robot_client/src/AIUtils.cpp:283-297 | At every rank trios plus remaining counts are the counts before, and no rank is left with three |
| `Singles.GetNormalHand` | new_robot_client/src/AIUtils.cpp:540-586 | The mixed if / else-if scan files each rank under exactly the kind of its count |
| `Singles.NormalConserves` | new_robot_client/src/AIUtils.cpp:540-586 | Leftover hands plus leftover counts are what was there, also for negative and too large counts |
| `Runs.GetTrioChain` | new_robot_client/src/AIUtils.cpp:299-331 | The in-place scan over runs takes the specified trio chains and subtracts exactly their bodies |
| `Runs.TrioChainsAreRuns` | new_robot_client/src/AIUtils.cpp:299-331 | A hand is among the trio chains iff it is a maximal run of at least two trios inside 3..A |
| `Runs.TrioChainsTake` | new_robot_client/src/AIUtils.cpp:299-331 | Trio chains take three cards of a rank iff the rank and a neighbour hold three, and never twice |
| `Runs.GetPairChain` | new_robot_client/src/AIUtils.cpp:333-367 | The in-place scan takes the specified pair chains and debits two cards of every rank of each chain and of the rank right after it |
| `Runs.PairChainsAreRuns` | new_robot_client/src/AIUtils.cpp:333-389 | A hand is among the pair chains iff it is a maximal run of at least three pairs, shortened at its ends |
| `Runs.PairChainsTake` | new_robot_client/src/AIUtils.cpp:333-367 | Pair chains never overlap and take only from ranks of 3..A that hold a pair |
| `Runs.DebitedIff` | new_robot_client/src/AIUtils.cpp:333-389 | The debit past a chain: a rank is debited, and then once, iff a maximal run of at least three pairs, shortened, ends right below it; and then no pair chain takes from that rank itself |
| `Runs.OptimizePairChain` | new_robot_client/src/AIUtils.cpp:369-389 | The shortening loop equals its specification |
| `Runs.OptimizedEnds` | new_robot_client/src/AIUtils.cpp:369-389 | A shortened pair chain has three ranks, or exactly two cards at both ends |
| `Runs.OptimizeStep` | new_robot_client/src/AIUtils.cpp:369-389 | One cut at a time, of a chain longer than three: the high end if it has more cards, else the low end if it has more than two, else none |
| `Runs.OptimizeCutsSpare` | new_robot_client/src/AIUtils.cpp:369-389 | Every rank that is cut off holds more than two cards |
| `SoloChains.ExtractChains` | new_robot_client/src/AIUtils.cpp:392-432 | The in-place scan for chains of five equals its specification, which stays at a rank while that still starts a chain |
| `SoloChains.ExtractLeavesNoFive` | new_robot_client/src/AIUtils.cpp:392-432 | The scan skips whole runs and yet leaves no five loose ranks in a row anywhere in 3..A |
| `SoloChains.ExtractIsNaive` | new_robot_client/src/AIUtils.cpp:392-432 | The skipping scan equals the naive one, which takes five from a rank as long as it starts five and then goes one rank up |
| `SoloChains.ExpandSoloChain` | new_robot_client/src/AIUtils.cpp:434-463 | Extending every chain over loose cards and merging chains that meet, in place, equals the specification |
| `SoloChains.ExtendIsComplete` | new_robot_client/src/AIUtils.cpp:434-447 | A chain is extended upwards over every rank with loose cards, one card each, until the ace or a rank without any |
| `SoloChains.MergeFirst` | new_robot_client/src/AIUtils.cpp:448-462 | Chain by chain, each takes over the first later chain that starts where it ends and no second one; the rest of the list is merged in the same way |
| `SoloChains.MergeList` | new_robot_client/src/AIUtils.cpp:448-462 | Merging leaves chains inside 3..A of at least five ranks |
| `SoloChains.MergeTotal` | new_robot_client/src/AIUtils.cpp:448-462 | Merging chains moves no card at any rank |
| `SoloChains.OptimizeSoloChain` | new_robot_client/src/AIUtils.cpp:465-538 | Both trims over all chains, in place, equal their specification |
| `SoloChains.TrimOneWide` | new_robot_client/src/AIUtils.cpp:467-505 | Trimming one wide chain in place, high side cut by the low count as in the code, equals its specification |
| `SoloChains.TrimWideLength` | new_robot_client/src/AIUtils.cpp:467-505 | The wide trim leaves fewer than five ranks iff the chain is twelve long with exactly four spare ranks below and three above, and then leaves four |
| `SoloChains.TrimWideSides` | new_robot_client/src/AIUtils.cpp:467-505 | With ll and hl loose ranks in a row at the ends, up to all but five: the low end is cut iff ll is at least three and no less than hl, or a chain of five remains; the high end iff hl is at least three and more than ll, or a chain of five remains; either cut is ll long |
| `SoloChains.TrimWideConserves` | new_robot_client/src/AIUtils.cpp:467-505 | The wide trim gives back exactly the cards it cuts off |
| `SoloChains.TrimNarrowFacts` | new_robot_client/src/AIUtils.cpp:506-537 | The narrow trim conserves cards and never takes a chain below five |
| `SoloChains.NarrowStep` | new_robot_client/src/AIUtils.cpp:506-537 | One cut at a time, of a chain longer than five: the end with more loose cards goes, the low one on a tie; with none at either end the chain stays |
| `SoloChains.NarrowComplete` | new_robot_client/src/AIUtils.cpp:506-537 | What is left has five ranks at most, or no loose card at either end |
| `SoloChains.NarrowCutsLoose` | new_robot_client/src/AIUtils.cpp:506-537 | Every rank that is cut off held a loose card and now holds one more |
| `SoloChains.LastChainTrimmed` | new_robot_client/src/AIUtils.cpp:465-538 | After all five stages the last chain, and so a lone one, has five ranks at most or no loose card at either end |
| `SoloChains.GetSoloChain` | new_robot_client/src/AIUtils.cpp:392-432 | All five stages in place give the specified pool, whose chains have at least four ranks inside 3..A and whose cards are exactly the input |
| `SoloChains.SoloSplit` | new_robot_client/src/AIUtils.cpp:392-538 | Loose cards plus chains are the input at every rank, no count is negative, every chain lies in 3..A |
| `SoloChains.ShortChainIff` | new_robot_client/src/AIUtils.cpp:465-538 | The trims leave a chain shorter than five iff some merged chain meets the one bad shape when its turn comes |
| `ShortChains.ShortChainIffLeavesFour` | new_robot_client/src/AIUtils.cpp:392-538 | Told from the input: of at most 20 cards the five stages make a chain shorter than five iff 3, 4, 5, 6, Q, K and A are held twice, 7, 8 and J exactly once, and 9 and T at all |
| `ShortChains.SplitEmitsFourIff` | new_robot_client/src/AIUtils.cpp:392-688 | A split of any kind emits an unrecognisable chain of four iff its input counts have that shape - and, for kind 5, which takes trios first, no rank of it is held three times |
| `ShortChains.NineteenCardsFail` | new_robot_client/src/AIUtils.cpp:465-688 | Counter-example: of one legal hand of 19 cards every kind of split makes 7-8-9-T, which the classifier reads as nothing |
| `SoloChains.ExtractSkips` | new_robot_client/src/AIUtils.cpp:392-432 | Past ranks at which no five start, up to an empty rank, the scan gives the same as starting there |
| `SoloChains.EighteenCardsSuffice` | new_robot_client/src/AIUtils.cpp:392-538 | With at most 18 cards every chain keeps at least five ranks |
| `Kickers.FindKickerForTrioOrTrioChain` | new_robot_client/src/AIUtils.cpp:779-883 | The erasing loops over trio chains, solos, pairs and trios give the specified map |
| `Kickers.AttachFacts` | new_robot_client/src/AIUtils.cpp:779-883 | Attaching kickers moves cards between hands and nothing else, makes only shaped hands (kickers ascending, distinct, off the body), leaves chains and bombs alone, and ends with no trio or no solo and pair left |
| `Kickers.TakeOutsideFacts` | new_robot_client/src/AIUtils.cpp:805-830 | Solos moved to a chain are ascending, off its body, and as many as asked for if enough lie outside |
| `Kickers.TakeOutsideLowest` | new_robot_client/src/AIUtils.cpp:805-830 | Every solo outside the body that stays is higher than every solo taken |
| `Kickers.AttachChainsStops` | new_robot_client/src/AIUtils.cpp:779-850 | The loop leaves a trio chain bare only if neither its useful solos nor the pairs suffice |
| `Kickers.ChainKickers` | new_robot_client/src/AIUtils.cpp:779-848 | A trio chain gets the lowest solos off its body if there are enough, else the lowest pairs if there are enough; else it and all later chains stay bare |
| `Kickers.UsefulAreOutside` | new_robot_client/src/AIUtils.cpp:785-805 | The solos counted as useful are exactly those off the body of the chain |
| `Kickers.TrioKickers` | new_robot_client/src/AIUtils.cpp:850-883 | The first trio gets the lowest of all solos and pairs, the solo if there are both of that rank |
| `Kickers.ChainsBeforeTrios` | new_robot_client/src/AIUtils.cpp:779-883 | Trio chains get their kickers before trios do |
| `Kickers.KickerIsLowest` | new_robot_client/src/AIUtils.cpp:850-883 | A trio gets the lowest of all solos and pairs still there |
| `Kickers.AtMostFiveKickers` | new_robot_client/src/AIUtils.cpp:779-850 | A winged chain made of at most 20 cards has at most five kickers, so the kicker array never overflows |
| `Splitters.SplitCardsToHandsKind1` | new_robot_client/src/AIUtils.cpp:588-600 | Kind 1 in place leaves exactly the map and the residue of its specification |
| `Splitters.SplitCardsToHandsKind2` | new_robot_client/src/AIUtils.cpp:602-614 | Kind 2 in place leaves exactly the map and the residue of its specification |
| `Splitters.SplitCardsToHandsKind3` | new_robot_client/src/AIUtils.cpp:616-628 | Kind 3 in place leaves exactly the map and the residue of its specification |
| `Splitters.SplitCardsToHandsKind4` | new_robot_client/src/AIUtils.cpp:665-675 | Kind 4 in place leaves exactly the map and the residue of its specification |
| `Splitters.SplitCardsToHandsKind5` | new_robot_client/src/AIUtils.cpp:677-688 | Kind 5 in place leaves exactly the map and the residue of its specification |
| `Splitters.OrderOfKind1` | new_robot_client/src/AIUtils.cpp:588-600 | Kind 1 takes its solo chains from all cards, bombs from what these leave, trio chains from what is left then, and pair chains from what is left after that |
| `Splitters.OrderOfKind2` | new_robot_client/src/AIUtils.cpp:602-614 | Kind 2 takes bombs from all cards, trio chains from what is left, then solo chains, then pair chains |
| `Splitters.OrderOfKind3` | new_robot_client/src/AIUtils.cpp:616-628 | Kind 3 takes solo chains from all cards, then bombs, then pair chains, and trio chains from what these and their debits leave |
| `Splitters.OrderOfKind4` | new_robot_client/src/AIUtils.cpp:665-675 | Kind 4 takes solo chains from all cards, then bombs, and makes no other chain |
| `Splitters.OrderOfKind5` | new_robot_client/src/AIUtils.cpp:677-688 | Kind 5 takes bombs from all cards, then trios, then solo chains, and makes no other chain |
| `Splitters.KickersLast` | new_robot_client/src/AIUtils.cpp:588-688 | Of every kind, a split with kickers is the split without them with kickers attached |
| `Splitters.SplitConserves` | new_robot_client/src/AIUtils.cpp:588-688 | Rank by rank no split over-commits; hands + signed residue + two per pair chain ending right below the rank add up to the input; without a pair chain, so always for kinds 4 and 5, the hands are exactly the input |
| `Splitters.SplitForgets` | new_robot_client/src/AIUtils.cpp:333-628 | Kinds 1 to 3: if a pair chain - what is left of a maximal run of pairs - ends right below a rank, two of the cards loose at that rank, or the one there is, are in no hand; at every other rank no card is lost |
| `Splitters.PairChainForgetsACard` | new_robot_client/src/AIUtils.cpp:359-362 | Counter-example: of 3-3-4-4-5-5-6 the 6 is in no hand of kind 1 |
| `Splitters.SplitHandsShaped` | new_robot_client/src/AIUtils.cpp:588-688 | Every emitted hand is held in full and well formed, but for chains of four, and with at most 18 cards without exception |
| `Splitters.SplitNotEmpty` | new_robot_client/src/AIUtils.cpp:588-688 | A seat that holds a card always gets a hand |
| `Splitters.SortHandsWithBestKind` | new_robot_client/src/AIUtils.cpp:630-663 | Whatever the scores are, the result is the split of kind 1, 2 or 3 of the same unchanged counts |
| `Splitters.SortHandsLordOnly1Card` | new_robot_client/src/AIUtils.cpp:690-715 | The split of kind 4 or 5 whose lowest solo is higher, kind 4 if they are equal; the number of solos plays no part, since it is never counted |
| `Splitters.LowestSoloIs` | new_robot_client/src/AIUtils.cpp:735-752 | The lowest solo a split reports is the lowest of its ascending solos, or the red joker if it has none |
| `HigherSearch.FindHigherHandFromPoints` | new_robot_client/src/AIUtils.cpp:885-989 | The skip-ahead scans find the lowest key above the given one at which the hand fits, the answer of naive search |
| `HigherSearch.ScanChain` | new_robot_client/src/AIUtils.cpp:885-960 | The chain scan, which jumps over failed runs, equals naive search from the next key |
| `HigherSearch.IteratesEnumerate` | new_robot_client/src/AIUtils.cpp:885-989 | Repeating the search yields exactly the keys above the given one at which the plain hand fits |
| `HigherSearch.IteratesAreHeld` | new_robot_client/src/AIUtils.cpp:885-989 | On the cards themselves: of any kind without wings, a hand is among the answers iff it is of the same kind and length, higher, inside the ranks of its kind and held, rank by rank |
| `HigherSearch.AnswerIsLowest` | new_robot_client/src/AIUtils.cpp:885-989 | Winged or not, an answer lies at the lowest key above the one asked about at which the body is held; a hand without wings gets none iff there is no such key |
| `HigherSearch.IteratesRise` | new_robot_client/src/OGLordRobotAI.cpp:2306-2357 | The answers rise strictly and stay at most the red joker, for every kind of hand, so the endless loop ends |
| `HigherSearch.IteratesBeat` | new_robot_client/src/AIUtils.cpp:885-979 | Every plain answer beats the hand asked about and is made of cards that are there |
| `HigherSearch.CollectHigher` | new_robot_client/src/OGLordRobotAI.cpp:2306-2357 | The driver loop returns the lowest accepted answer, or, if none is accepted, has gathered exactly the answers worth keeping |
| `HigherSearch.FindBestHigherHandFromPoints` | new_robot_client/src/OGLordRobotAI.cpp:2306-2417 | The result is the lowest accepted answer, else one worth keeping, else nothing, whatever the scores say |
| `HigherSearch.AnswerBeatsIff` | new_robot_client/src/AIUtils.cpp:885-1192 | Of every kind of hand, winged ones and fours with two included: an answer of the search beats the hand asked about iff that is neither a trio chain with pair wings nor a nuke |
| `HigherSearch.IteratesBeatIff` | new_robot_client/src/OGLordRobotAI.cpp:2306-2357 | On legal counts every answer the driver ever sees beats the table, iff the table is no trio chain with pair wings |
| `FindKicker.FindKickerFromPoints` | new_robot_client/src/AIUtils.cpp:991-1192 | The search through a split without kickers and then through the counts gives the specified answer; a read past the end of the list of solos gives an arbitrary rank |
| `WingedAnswers.SoloKickerFacts` | new_robot_client/src/AIUtils.cpp:1006-1059 | A kicker for a trio is found iff a card of another rank is left, and it is such a card |
| `WingedAnswers.PairKickerFacts` | new_robot_client/src/AIUtils.cpp:1060-1085 | A pair for a trio is found iff another rank up to the two is held twice, and it is such a rank |
| `WingedAnswers.SoloFirst` | new_robot_client/src/AIUtils.cpp:1006-1018 | A trio gets the first solo of another rank, if there is one |
| `WingedAnswers.LinkSecond` | new_robot_client/src/AIUtils.cpp:1019-1036 | Else it gets the start, of another rank, of a chain that begins where an earlier one ends, if there is one |
| `WingedAnswers.SpareThird` | new_robot_client/src/AIUtils.cpp:1037-1050 | Else an end of the first chain longer than five, the high one iff the low one is its own rank |
| `WingedAnswers.LowestLast` | new_robot_client/src/AIUtils.cpp:1051-1059 | Only then it gets the lowest other rank held |
| `WingedAnswers.PairKickerOrder` | new_robot_client/src/AIUtils.cpp:1060-1085 | A trio gets the first pair; else the start of the first pair chain if that is longer than three; else the lowest other rank held twice |
| `WingedAnswers.TrioSearchExact` | new_robot_client/src/AIUtils.cpp:885-1192 | To a trio with one kicker or a pair the search gives the lowest trio above it with a kicker held beside it; it gives no answer iff no held hand of the kind is higher - although it tries the kickers of the first trio only |
| `WingedAnswers.WingsHeld` | new_robot_client/src/AIUtils.cpp:1086-1146 | Every kicker offered for a trio chain is a rank of which a card is left beside the body |
| `WingedAnswers.WingsTakeSolosFirst` | new_robot_client/src/AIUtils.cpp:1086-1100 | A chain gets the solos off its body first and in their order, and nothing else if there are enough |
| `WingedAnswers.OutsideKeysIff` | new_robot_client/src/AIUtils.cpp:1086-1100 | The solos taken are exactly those off the body |
| `WingedAnswers.ChainWingsCount` | new_robot_client/src/AIUtils.cpp:1100-1122 | A solo chain gives as many ranks as are needed but no more than down to length five, each once, beginning at its low end iff it starts below the body or the solo read with it lies above |
| `WingedAnswers.ChainReadsSolo` | new_robot_client/src/AIUtils.cpp:1100-1122 | Which end a solo chain gives is decided by the solo of the same index, which has nothing to do with it and need not be there |
| `WingedAnswers.LowestHeldIs` | new_robot_client/src/AIUtils.cpp:1124-1137 | The ranks that fill up are the lowest held: a rank held that is not among them lies above them, and they are enough |
| `WingedAnswers.SolidIff` | new_robot_client/src/AIUtils.cpp:1086-1146 | The kickers of a chain are different and off its body iff those from solos and solo chains are, and the lowest ranks that fill up are neither among these nor in the body |
| `WingedAnswers.SolidWithoutSpareIff` | new_robot_client/src/AIUtils.cpp:1086-1146 | Without a solo chain of six or more in the split: iff enough solos lie outside the body, or the lowest ranks left that fill up are neither among these solos nor in the body |
| `WingedAnswers.SolidIsHeld` | new_robot_client/src/AIUtils.cpp:1086-1146 | Then the answer is held, kickers and body, rank by rank |
| `WingedAnswers.OneLeftOfferedTwice` | new_robot_client/src/AIUtils.cpp:1124-1137 | Counter-example: asked about 333444 with wings, holding 444555 and one 3, the search answers 444555 with two threes, one of which is not held |
| `WingedAnswers.PairWingsAreNotBeaten` | new_robot_client/src/AIUtils.cpp:1086 | Counter-example: asked about 333444 with 55 and 66, holding 444555 with 77 and 88, the search answers 444555 with a 7 and an 8, which does not beat it, although 444555 with 77 and 88 would |
| `WingedAnswers.SearchExists` | new_robot_client/src/AIUtils.cpp:991-1192 | On any legal counts there is a kicker search that answers each body by looking at a split of what is left, as the results on winged hands suppose |
| `WingedAnswers.AnswerPrintableIff` | new_robot_client/src/AIUtils.cpp:885-1192 | An answer of the search can be printed iff the hand asked about is no four with two, whose kickers are never set |
| `WingedAnswers.IteratesPrintableIff` | new_robot_client/src/OGLordRobotAI.cpp:2306-2357 | The driver prints every answer it goes through; each of them can be printed iff the table is no four with two |
| `Sending.SearchedAnswerIsSent` | new_robot_client/src/OGLordRobotAI.cpp:2306-2357 | Every hand the driver can find for a plain hand on the table is well formed, held, higher, and goes out recognised as itself |
| `ChargeHand.IsChargeHand` | new_robot_client/src/AIUtils.cpp:113-256 | A hand charges iff it has more cards than an opponent holds, or is a solo chain the table calls long enough, or no rank or run of the opponents answers it, or - for trios and solo chains with the own split at hand - one of the first n own hands of its kind is no lower, n being the own hands above what the opponents are said to hold at best: their highest run as long, but their lowest trio |
| `ChargeHand.ChargeAgreesWithSearch` | new_robot_client/src/AIUtils.cpp:113-191 | On legal opponent counts a solo, pair, trio or solo chain is found to have no answer iff the search for higher hands finds none, whatever its kicker search |
| `ChargeHand.WingedUnanswered` | new_robot_client/src/AIUtils.cpp:113-160 | On legal opponent counts a trio with a kicker is found to have no answer iff the naive search finds no trio above it |
| `ChargeHand.LongestRunDecides` | new_robot_client/src/AIUtils.cpp:160-191 | Comparing with the longest run of the opponent and naive search agree for solo chains |
| `ChargeHand.LongestRun` | new_robot_client/src/AIUtils.cpp:160-191 | The nested loop computes the maximum length over all runs that start in the window |
| `ChargeHand.ChargeLenIs` | new_robot_client/include/RobotConfig.h:14 | A solo chain of 5 to 10 ranks counts as unanswerable by fewer than 7, 9, .. 17 cards, and one of 11 or 12 ranks by fewer than 18 |
| `ChargeHand.GetHighestSoloChain` | new_robot_client/src/AIUtils.cpp:1993-2020 | Finds the highest run of the length asked for if there is one; else it gives back the lowest two ranks in a row |
| `ChargeHand.GetHighestTrio` | new_robot_client/src/AIUtils.cpp:2022-2032 | Finds the lowest trio of the opponents, or -1 iff they have none |
| `ChargeHand.BackedIff` | new_robot_client/src/AIUtils.cpp:236-252 | If the own hands of a kind are listed in ascending order, the split backs a hand iff more of them are above the best of the opponents than are below that hand |
| `ChargeHand.CountAboveIs` | new_robot_client/src/AIUtils.cpp:240-246 | The high hands counted are the own hands of the kind above the best of the opponents |
| `ChargeHand.KeysOfLengthIff` | new_robot_client/src/AIUtils.cpp:200-212 | The own rivals of a solo chain are the solo chains of the split of the same length |
| `ChargeHand.RivalTrios` | new_robot_client/src/AIUtils.cpp:213-231 | The own rivals of a trio are listed without kicker first, then with a single one, then with a pair |
| `ChargeHand.EnoughHighBack` | new_robot_client/src/AIUtils.cpp:236-252 | In any order a hand with that many high ones is backed |
| `ChargeHand.OrderMatters` | new_robot_client/src/AIUtils.cpp:213-252 | Counter-example to the converse: bare trios are listed before those with kickers, so beside a bare ten a four with a kicker is backed although a three is below it and the ten alone is high |
| `ChargeHand.LowestTrioOverrates` | new_robot_client/src/AIUtils.cpp:2022-2032 | Comparing with the lowest trio of the opponents never backs fewer hands than comparing with the highest; in ascending order it backs exactly those hands too many whose number of lower ones is at least that of the hands above the highest and below that of the hands above the lowest |
| `ShortChains.RatedInTableIff` | new_robot_client/src/AIUtils.cpp:717-777 | Rating every hand of a split of any kind reads the table of chain lengths within its bounds, unless the counts have the one shape that leaves a chain of four and the opponent holds at least four cards; then it does not |
| `Control.ComputeControl` | new_robot_client/src/AIUtils.cpp:1332-1383 | The loop over two copied arrays returns the specified value and ends, since each round spends a card of mine |
| `Control.GetLowestControl` | new_robot_client/src/AIUtils.cpp:1194-1208 | The highest rank from which on at least six cards are in play, or the three if there is none |
| `Control.PlayRound` | new_robot_client/src/AIUtils.cpp:1340-1375 | One round in place equals its specification and reports how much each side spent |
| `Control.PlayIsRound` | new_robot_client/src/AIUtils.cpp:1347-1375 | A round told without its loop: the seats take turns, I begin, each spends one card of the least rank it holds above the last one spent, until the seat to move holds none there; exactly these cards go |
| `Control.RoundExists` | new_robot_client/src/AIUtils.cpp:1347-1375 | From any counts there is such a list of ranks |
| `Control.RoundLostIff` | new_robot_client/src/AIUtils.cpp:1367-1375 | A round is lost iff an even number of ranks is spent; at least one always is |
| `Control.PlayAlternates` | new_robot_client/src/AIUtils.cpp:1340-1375 | Within a round spending alternates, so the two totals fall in step with whose turn it is |
| `Control.ExactAccount` | new_robot_client/src/AIUtils.cpp:1332-1383 | Before clamping the value is 10 (M - O + O') - L, it never exceeds 10 M, and one side has no control card left |
| `Control.GameIsRounds` | new_robot_client/src/AIUtils.cpp:1346-1377 | The game is its rounds, played while both seats have control cards: ten for each round won, minus one for each lost, and each seat is left with the control cards of the last table |
| `Control.GameEnds` | new_robot_client/src/AIUtils.cpp:1346-1377 | From any counts there is such a list of tables |
| `Control.ControlOfGame` | new_robot_client/src/AIUtils.cpp:1332-1383 | The number of controls is the whole tens of ten for each round won and each control card of mine left, less one for each round lost, but not negative |
| `Control.ControlBounds` | new_robot_client/src/AIUtils.cpp:1332-1383 | The result lies in 0..max(0, M), and is max(0, M) against no control cards |
| `LevelZero.FindLowestHand` | new_robot_client/src/OGLordRobotAI.cpp:526-550 | The scan over the ordered map equals its specification |
| `LevelZero.LowestHandIsLowest` | new_robot_client/src/OGLordRobotAI.cpp:526-550 | There is a lead iff the split is not empty; it has the lowest key of the first hands of all kinds, and the most cards among those with that key |
| `LevelZero.LeadIsFirstLowest` | new_robot_client/src/OGLordRobotAI.cpp:526-550 | The lead is the first hand of the first list that none goes before: ties go to the kind listed earlier |
| `HandMaps.InOrderByType` | new_robot_client/src/OGLordRobotAI.cpp:526-550 | The lists are gone through in the order of the enumeration of types, and none is left out |
| `LevelZero.LeadIsLowestIff` | new_robot_client/src/OGLordRobotAI.cpp:526-550 | The lead has the lowest key of all hands of the split iff no hand is lower than the first hands of all kinds |
| `LeadOrder.NukeLedBeforeBomb` | new_robot_client/src/OGLordRobotAI.cpp:526-550 | Counter-example: of four threes and both jokers every split leads the nuke, which is listed before the lower bomb |
| `LevelZero.FindHigherHand` | new_robot_client/src/OGLordRobotAI.cpp:552-563 | First hand of the same kind that is higher, else the first bomb |
| `LevelZero.FindHigherHandNotBomb` | new_robot_client/src/OGLordRobotAI.cpp:565-592 | The first hand of the kind with a higher key and, for chains, the same length |
| `LevelZero.HigherHandFinds` | new_robot_client/src/OGLordRobotAI.cpp:552-592 | The answer is a hand of the split, and beats the table whenever any hand of the split does |
| `LevelZero.AnswersInKindFirst` | new_robot_client/src/OGLordRobotAI.cpp:552-592 | If the split holds a higher hand of the same kind and length, the answer is the first of these and no bomb is spent |
| `LevelZero.ElseFirstBomb` | new_robot_client/src/OGLordRobotAI.cpp:552-563 | Without one the answer is the first bomb of the split, or nothing if it has none |
| `TakeOut.TakeCards` | new_robot_client/src/OGLordRobotAI.cpp:620-641 | The erasing loop takes and keeps exactly the specified cards, in order |
| `TakeOut.TakenConserves` | new_robot_client/src/OGLordRobotAI.cpp:620-641 | Taken and kept cards together are the cards held |
| `TakeOut.TakenCounts` | new_robot_client/src/OGLordRobotAI.cpp:620-641 | Of each rank as many cards are taken as are asked for, or all that are held |
| `TakeOut.TakenAreFirst` | new_robot_client/src/OGLordRobotAI.cpp:620-641 | Of a rank the cards held first are taken |
| `TakeOut.RemoveAllCards` | new_robot_client/src/OGLordRobotAI.cpp:34-46 | Removing given cards takes away one copy of each that is held |
| `GameBook.PlaysKeepGap` | new_robot_client/src/OGLordRobotAI.cpp:204-239 | No run of plays by any seats changes others + own - remaining at any rank |
| `GameBook.GapFromDeal` | new_robot_client/src/OGLordRobotAI.cpp:47-239 | From the deal on that gap is zero for a farmer and the base cards for the lord |
| `GameBook.TotalsAddUp` | new_robot_client/src/OGLordRobotAI.cpp:178-239 | Once the lord is set the totals of the three seats always add up to the cards still in play |
| `GameBook.BookFromDeal` | new_robot_client/src/OGLordRobotAI.cpp:47-239 | The whole book at any time of a game: each seat has 17 cards, the lord 20, less its own plays; in play is the deck less all plays; with the others, the deck less the own deal and the plays of the others; the own counts are the deal, with the base cards for the lord, less the own plays; of other seats nothing is known |
| `GameBook.LordTakesBase` | new_robot_client/src/OGLordRobotAI.cpp:178-202 | Setting the lord makes its total 20 and adds the base cards to its counts iff they are kept; no other seat changes |
| `GameBook.DebitedOfOthers` | new_robot_client/src/OGLordRobotAI.cpp:219-229 | A play of another seat changes none of its counts if they are not known, all of them if it holds the threes it plays, and the threes alone if it does not |
| `RobotAI.OGLordRobotAI.RbtInInitCard` | new_robot_client/src/OGLordRobotAI.cpp:47-89 | After the deal only the own seat is known, 17 cards a seat, the whole deck is in play, the others hold the rest, nothing lies on the table or in the histories, and the control game is rated against the rest |
| `RobotAI.OGLordRobotAI.CountOpponents` | new_robot_client/src/OGLordRobotAI.cpp:421-446 | The most and the fewest cards among the seats the robot plays against: both others before the lord is set or as the lord, else the lord |
| `RobotAI.OGLordRobotAI.RbtInSetLord` | new_robot_client/src/OGLordRobotAI.cpp:178-202 | The lord has 20 cards and no other total changes; the base cards go to the own cards and to the noted counts iff the robot is the lord or knows the lord's; the position is that relative to the lord |
| `RobotAI.OGLordRobotAI.RbtInTakeOutCard` | new_robot_client/src/OGLordRobotAI.cpp:204-239 | The total of the seat that played goes down by its cards and no other; the counts in play go down rank by rank, those of the others unless the play is the own one; the history grows; the hand to beat changes iff the play is recognised, and stays the last recognised play of the history |
| `RobotAI.OGLordRobotAI.UpdateAiPosition` | new_robot_client/src/OGLordRobotAI.cpp:401-419 | Lord iff the seats agree, down farmer iff the seat follows the lord's |
| `RobotAI.OGLordRobotAI.IsFree` | new_robot_client/src/OGLordRobotAI.cpp:744-747 | Once the lord is set the robot may lead iff the last recognised play of the history is its own, or there is none and it is the lord |
| `RobotAI.OGLordRobotAI.TakeOutLvl0` | new_robot_client/src/OGLordRobotAI.cpp:643-655 | Leads with the lowest among the first hands of all kinds iff the last recognised play was its own, or there was none and it is the lord; else picks the first higher hand |
| `RobotAI.OGLordRobotAI.TakeOutHand` | new_robot_client/src/OGLordRobotAI.cpp:620-641 | The cards out, the cards kept and the record of the last cards out |
| `RobotAI.OGLordRobotAI.RecoveryHandCards` | new_robot_client/src/OGLordRobotAI.cpp:21-27 | The last cards out are appended to the cards held |
| `RobotAI.OGLordRobotAI.RemoveExtraCards` | new_robot_client/src/OGLordRobotAI.cpp:34-46 | The cards held lose exactly the given multiset |
| `RobotAI.OGLordRobotAI.IsLastTakeOutCards` | new_robot_client/src/OGLordRobotAI.cpp:29-32 | True iff the last cards out are the given ones in whatever order |
| `TakeOut.IsSameCardsInfo` | new_robot_client/src/AIUtils.cpp:1792-1810 | Sizes, then two sorted copies element by element: true iff the two lists hold the same cards in whatever order |
| `TakeOut.SortedUnique` | new_robot_client/src/AIUtils.cpp:1792-1810 | Two sorted lists of the same cards are equal, so comparing them element by element decides |
| `RobotAI.OGLordRobotAI.SendHand` | new_robot_client/src/OGLordRobotAI.cpp:276-300 | The tail of the turn: what goes out and what is kept, for leads with retry iff the robot has the lead by the history, else for guarded answers |
| `RobotAI.OGLordRobotAI.RbtOutGetTakeOutCard` | new_robot_client/src/OGLordRobotAI.cpp:241-305 | The lowest control rank and the own controls are rated anew; at any level an answer conserves the cards and is empty, unrecognisable or higher; at level 0 every turn conserves them, and is a sound lead iff the last recognised play was its own, or there was none and it is the lord, else a sound answer or justified pass |
| `LevelZeroRuns.RecvTakeOutCardAck` | new_robot_client/src/RobotTask.cpp:924-948 | In a game and parsed, a failed take-out puts the last cards out back, and cards and counts are in step again; otherwise nothing changes |
| `LevelZeroRuns.RecvGetTrustNotify` | new_robot_client/src/RobotTask.cpp:702-731 | Being put in trust in a game counts as a failure of the last take-out; another seat's trust, or outside a game, changes nothing |
| `LevelZeroRuns.RecvGetTakeOutCardNotify` | new_robot_client/src/RobotTask.cpp:654-700 | The play is noted, and if the robot is next it is asked; after an expected play the request is on its way, but for leads of other levels; at level 0 it is a sound lead, answer or pass, at other levels exactly what the guard makes of the choice; outside a game nothing happens |
| `LevelZeroRuns.NoteTakeOut` | new_robot_client/src/RobotTask.cpp:676-685 | An own play is subtracted from the noted counts, and from the cards held iff it is not what was sent last; after every expected play cards and counts are in step and a legal hand lies on the table |
| `LevelZeroRuns.StartGame` | new_robot_client/src/RobotTask.cpp:498-652 | After any deal of 17 and 3 different cards the robot, lord or farmer, can be asked for its cards |
| `LevelZeroRuns.OpenGame` | new_robot_client/src/RobotTask.cpp:593-652 | From any deal to the first turn: the lord and no other seat is asked when the base cards are there, and at level 0 it sends a lead, never nothing, of the cards dealt to it and the base cards |
| `LevelZeroRuns.DealReady` | new_robot_client/src/OGLordRobotAI.cpp:47-202 | The counts noted after deal and base cards are legal and those of the cards held |
| `LevelZeroRuns.GameFromDeal` | new_robot_client/src/RobotTask.cpp:498-948 | From any deal on, whatever the others play and the server refuses, every own turn at level 0 is good |
| `LevelZeroRuns.AcceptedKeepsSync` | new_robot_client/src/RobotTask.cpp:654-922 | After a conserving request that is noted as sent, noted counts and cards held agree |
| `LevelZeroRuns.RefusedKeepsSyncIff` | new_robot_client/src/RobotTask.cpp:654-948 | After one failure signal they agree iff the substituted play differs from the refused one, or is no card |
| `LevelZeroRuns.RunKeepsSync` | new_robot_client/src/RobotTask.cpp:654-948 | Over every run of such rounds the noted own counts are the counts of the cards held |
| `LevelZeroRuns.FailuresAgreeIff` | new_robot_client/src/RobotTask.cpp:654-948 | After any positive number of failure signals for one request, and whatever of its cards is then played for the seat, counts and cards agree iff the request sent no card, or there was one signal and the play differs |
| `LevelZeroRuns.SecondFailureDoubles` | new_robot_client/src/RobotTask.cpp:702-731 | After two failure signals for one request they agree iff the request sent no card, whatever is then played, the refused cards included |
| `TimingWheel.WheelRefinesStamps` | new_robot_client/src/EventProcess.cpp:174-200 | After any interleaving of connects, reads, closes and ticks the wheel of shared entries is the table of last-activity times |
| `TimingWheel.TurnRefines` | new_robot_client/src/EventProcess.cpp:174-200 | Every event keeps wheel and times in step, and a tick closes exactly the expired live connections |
| `TimingWheel.HeldIffActive` | new_robot_client/src/EventProcess.cpp:30-43 | An entry is held by some bucket iff fewer than 30 ticks passed since its connection's last connect or read |
| `TimingWheel.ClosedIffIdle` | new_robot_client/src/EventProcess.cpp:383-388 | A tick closes a connection iff it still exists and this is its thirtieth idle tick |
| `TimingWheel.HeldAfterRun` | new_robot_client/src/EventProcess.cpp:30-43 | The same in terms of the tracked time stamps, after any run |
| `TimingWheel.ClosedAtThirtiethIdleTick` | new_robot_client/src/EventProcess.cpp:383-388 | What a tick closes after any run, in terms of time stamps |
| `TimingWheel.EventProcess.ConnectEvent` | new_robot_client/src/EventProcess.cpp:174-190 | A new entry in the newest bucket, linked with its connection |
| `TimingWheel.EventProcess.OnReadEvent` | new_robot_client/src/EventProcess.cpp:192-200 | A read moves the entry to the newest bucket iff some bucket still holds it |
| `TimingWheel.EventProcess.TimingWheelOnTime` | new_robot_client/src/EventProcess.cpp:383-388 | Push an empty bucket, drop the oldest once full, and close exactly the live connections whose entries die with it |
| `RobotPools.IdentitiesConserved` | new_robot_client/src/EventProcess.cpp:251-368 | Over every run of add, server close, delete and delete-and-close, each robot is idle, busy or deleted - exactly one of these, never listed twice - and busy robots match open connections one to one |
| `RobotPools.HandleSound` | new_robot_client/src/EventProcess.cpp:251-368 | Every single event keeps that invariant |
| `RobotPools.HandleSoundIff` | new_robot_client/src/EventProcess.cpp:251-368 | An event on any connection ever made keeps the invariant iff it is harmless: a close iff the descriptor is open for the same robot; a delete iff that, or the buffer is gone; a delete-and-close also if the robot is in no list and the descriptor is closed |
| `RobotPools.RunSoundIff` | new_robot_client/src/EventProcess.cpp:251-368 | Over a run of events on connections in the table or not, the invariant holds throughout iff every event was harmless when it came |
| `RobotPools.SecondDeleteIsNothing` | new_robot_client/src/EventProcess.cpp:316-336 | A second delete of a connection once deleted changes nothing, whichever two kinds |
| `RobotPools.DeleteAfterServerClose` | new_robot_client/src/EventProcess.cpp:251-325 | Were a delete to reach a connection object after the server closed it, the robot would be listed twice: such a delete is not harmless |
| `RobotPools.RobotManager.AddRobot` | new_robot_client/src/EventProcess.cpp:287-347 | Puts the first idle robots to work one by one as the last busy ones, each serving its new connection, at most as many as asked, idle or connectable; fails iff a connection could not be made first |
| `RobotPools.AddAllInOrder` | new_robot_client/src/EventProcess.cpp:287-347 | The idle robots go to work from the front, in their order, behind the busy ones, each serving the connection made for it |
| `RobotPools.HandsBackLast` | new_robot_client/src/EventProcess.cpp:316-359 | A robot handed back becomes the last of the idle, its place among the busy closes up, and its descriptor goes off the table |
| `RobotPools.RobotManager.DelRobot` | new_robot_client/src/EventProcess.cpp:316-325 | Succeeds iff the buffer still exists; then the robot is idle again and the connection closed |
| `RobotPools.RobotManager.DelRobotAndCloseConnection` | new_robot_client/src/EventProcess.cpp:327-336 | Succeeds iff the buffer still exists; then the connection is closed and the robot in neither list |
| `RobotPools.RobotManager.CloseEvent` | new_robot_client/src/EventProcess.cpp:251-262 | The robot of a connection closed by the server is idle again and the connection off the table |
| `RobotPools.RobotManager.MoveRobotFromUntaskListToTaskList` | new_robot_client/src/EventProcess.cpp:349-359 | The robot of a connection moves from its place among the busy to the end of the idle |
| `RobotPools.RobotManager.MoveRobotFromUntaskList` | new_robot_client/src/EventProcess.cpp:361-368 | Only the first occurrence of the robot among the busy goes |
| `IdleConnections.TickReturnsRobots` | new_robot_client/src/EventProcess.cpp:30-43 | A tick that closes only connections in the table is harmless and hands back the robot of each of them exactly once, at the end of the idle list, and takes exactly these off the table |
| `IdleConnections.TickSoundIff` | new_robot_client/src/EventProcess.cpp:30-388 | Whatever connections a tick lets go of, in whatever order, the pools are sound throughout it iff each of these deletes is harmless when it comes: its buffer is gone, or its descriptor serves the same robot |
| `IdleConnections.RunSoundIff` | new_robot_client/src/EventProcess.cpp:30-388 | Over any run from a sound state of wheel and pools, both stay sound throughout iff every tick is harmless |
| `IdleConnections.IdleRobotsReturn` | new_robot_client/src/EventProcess.cpp:30-388 | From any list of distinct robots, over every interleaving of robots put to work, connects, reads, closes of all kinds and ticks: each robot stays in exactly one place and the wheel the table of last activities, throughout, iff every tick is harmless |
| `IdleConnections.StaleExpiryBreaks` | new_robot_client/src/EventProcess.cpp:30-43 | A tick that lets go of a single connection breaks the pools iff the server closed that one while a delayed message held on to it and its descriptor does not serve the same robot |
| `IdleConnections.StaleRunBreaks` | new_robot_client/src/EventProcess.cpp:30-43 | Counter-example: a robot put to work, a close by the server while a message is pending, 29 ticks and the thirtieth, which lists the robot twice |
| `Frames.RoundTrip` | new_robot_client/src/EventProcess.cpp:201-248 | For any messages with non-empty payloads below 2^31 bytes, all there and no handler closing, the loop dispatches exactly them in order and empties the buffer |
| `Frames.ClosingStops` | new_robot_client/src/EventProcess.cpp:201-248 | A handler that closes stops the loop right after its message; exactly the later frames stay in the buffer |
| `Frames.PartialFrame` | new_robot_client/src/EventProcess.cpp:201-248 | A frame that has only partly come is used up: nothing is dispatched for it iff under eight bytes are there, else a message of the right id and length with made-up last bytes |
| `Frames.BadHeaderStops` | new_robot_client/src/EventProcess.cpp:205-230 | A length of zero stops the loop with the length used up, a negative one, in the model, with length and id used up; nothing is dispatched and the rest of the buffer stays |
| `Frames.NtohUndoesHton` | new_robot_client/src/RobotBase.cpp:255-281 | Network byte order is undone on every 32-bit value, negative ones too |
| `Frames.HtonIsBigEndian` | new_robot_client/src/RobotBase.cpp:255-281 | The four bytes stand for the value, most significant first, and for 2^32 more if it is negative |
| `Frames.FrameLayout` | new_robot_client/src/RobotBase.cpp:255-281 | A frame is the length of the payload, the id and the payload, in this order |
| `Frames.SerializeSendMsg` | new_robot_client/src/RobotBase.cpp:255-281 | Writes length, id and payload, the frame the read loop takes apart |
| `Frames.InputBuffer.OnReadEvent` | new_robot_client/src/EventProcess.cpp:201-248 | The read loop over a mutable buffer equals its specification |
| `Frames.InputBuffer.TakeFrame` | new_robot_client/src/EventProcess.cpp:201-240 | One round of the loop, with each of its ways to stop |
| `Dispatcher.WalkAsks` | robot_client/src/EventProcess.cpp:265-340 | Only connected waiting robots of the queue are asked, none twice; they and no others change status; the walk stops early only when enough were asked |
| `Dispatcher.RequestsSent` | robot_client/src/EventProcess.cpp:265-340 | Exactly as many requests go out as wanted, or as there are distinct waiting robots if fewer; a negative number asks all |
| `Dispatcher.WalkRotates` | robot_client/src/EventProcess.cpp:265-316 | The new queue is a rotation of the old one that visits some first part once and drops exactly its dead descriptors |
| `Dispatcher.WalkVisits` | robot_client/src/EventProcess.cpp:265-316 | Asked are exactly the waiting robots of the part visited, which ends with the last one asked once enough are |
| `Dispatcher.WalkCounts` | robot_client/src/EventProcess.cpp:265-316 | A requeued slot is as it was, or that of a robot just asked, counted once; and every robot asked is requeued so |
| `Dispatcher.EventProcess.ChangeStatusForRobot` | robot_client/src/EventProcess.cpp:265-316 | The popping and pushing loop leaves exactly the queue, statuses and requests of that walk |
| `RobotStatus.GamingWasEarned` | new_robot_client/src/RobotTask.cpp:129-807 | In a room that is no match room, over every run of messages and restarts, a robot in a game was verified and then initialised since its last reset |
| `RobotStatus.HistoryIs` | new_robot_client/src/RobotBase.cpp:56-93 | What is remembered, told from the run: a login that succeeded since the status was last INIT, an initialisation that succeeded since then after such a login, a game result since then |
| `RobotStatus.UnearnedGameHadResult` | new_robot_client/src/RobotTask.cpp:753-785 | In any room, a game without that login means a match room and a game result since the reset |
| `RobotStatus.GamesAreEarnedIff` | new_robot_client/src/RobotTask.cpp:129-807 | Over all runs every game is earned by a login iff the room is no match room |
| `RobotStatus.MatchResultSkipsLogin` | new_robot_client/src/RobotTask.cpp:753-785 | Counter-example: in a match room a game result alone puts a robot that never logged in into a game |
| `RobotStatus.MessageRaisesKeepsOrResets` | new_robot_client/src/RobotBase.cpp:56-93 | Every message raises the rank of the status, keeps the status, or resets it |
| `RobotStatus.OnlyResumingLowersOrdinal` | new_robot_client/src/RobotTask.cpp:331-464 | By position in the enumeration one move alone goes down: from picking up a broken game into the game |
| `RobotStatus.GameIsRemembered` | new_robot_client/src/RobotBase.cpp:125-223 | Over every run a robot remembers a game left behind iff some successful login named one and it has not been initialised or started over since |
| `RobotStatus.ResumesNamedGame` | new_robot_client/src/RobotBase.cpp:185-223 | So a successful initialisation leads to picking a game up iff the login named one that was not used up since, else to looking for a game |
| `RobotStatus.WaysIn` | new_robot_client/src/RobotBase.cpp:125-223 | Out of the first two statuses lead only the successful acknowledgements, or a game result in a match room |
| `RobotStatus.LoginMovesIff` | new_robot_client/src/RobotBase.cpp:125-223 | A message leads to VERIFIED iff it is a login that succeeds, and not if there only to test resuming a game it does not name; to KEEPPLAY or INITGAME iff it initialises a verified robot, by whether a game is remembered |
| `RobotStatus.SignUpMovesIff` | new_robot_client/src/RobotTask.cpp:129-311 | A message leads to QUICKGAME iff it is a quick start that succeeds; to CANSINGUP or SIGNUPED iff the conditions allow signing up, by whether the first cost that can be met is paid; to SIGNUPED also iff it is a sign-up that succeeds or was done before |
| `RobotStatus.GameMovesIff` | new_robot_client/src/RobotTask.cpp:331-785 | A message leads into a game iff it picks one up, enters the scene from one of four statuses, or is a result in a match room |
| `RobotStatus.LobbyStaysIff` | new_robot_client/src/RobotTask.cpp:129-464 | A message that looks for a game leaves a status other than INIT as it is iff it is a quick start or sign-up result inside a game, a quick start without enough coins, the scene of a game already entered, or a cancelled sign-up; every other one that does not move the robot on resets it |
| `RobotStatus.GameMessageOutcome` | new_robot_client/src/RobotTask.cpp:466-1005 | Notifications of a game are ignored outside one, and inside reset a robot that cannot read or answer them; acknowledgements of a game reset it unless it is in one and reads them; what ends a game or match resets it |
| `RobotStatus.LeavesIff` | new_robot_client/src/RobotTask.cpp:129-807 | A handler sends the robot away iff its game or match is over, it lacks coins for a quick start, or it was there only to test resuming a game it has not |
| `RobotStatus.RobotTask.RobotProcess` | new_robot_client/src/RobotBase.cpp:56-93 | Keeps, whatever the message, that each status was earned: outside match rooms a robot in a game was verified and initialised since its last reset; the rank rises, the status stays or is reset, and a reset ends the connection |
| `RobotStatus.RobotTask.RecvVerifyAck` | new_robot_client/src/RobotBase.cpp:125-165 | Leaves INIT iff the acknowledgement parses and succeeds, and not if there only to test resuming a game it has not; then to VERIFIED |
| `RobotStatus.RobotTask.RecvInitGameAck` | new_robot_client/src/RobotBase.cpp:185-223 | Leaves VERIFIED iff told of success: to KEEPPLAY, once, if a game was left, else to INITGAME |
| `RobotStatus.RobotTask.RecvQuerySignUpCondAck` | new_robot_client/src/RobotTask.cpp:181-257 | Leaves INITGAME iff signing up is free or some cost can be met; to SIGNUPED only if the first such cost is paid |
| `RobotStatus.RobotTask.RecvQuickBeginGameAck` | new_robot_client/src/RobotTask.cpp:129-166 | Leaves INITGAME iff the result is 0, to QUICKGAME; the robot leaves iff the result is 506 then |
| `RobotStatus.RobotTask.RecvSignUpAck` | new_robot_client/src/RobotTask.cpp:272-311 | Leaves CANSINGUP iff the result is 0 or 508, to SIGNUPED |
| `RobotStatus.RobotTask.RecvKeepPlayAck` | new_robot_client/src/RobotTask.cpp:331-430 | Leaves KEEPPLAY for the game iff the server agrees and the robot is seated, for INIT iff it is turned down |
| `RobotStatus.RobotTask.RecvEnterGameSceneNotify` | new_robot_client/src/RobotTask.cpp:432-464 | The status changes iff the notice parses and it was one of four, and then to GAMMING; from others than these and GAMMING the handler fails |
| `RobotStatus.RobotTask.RecvGetGameResultNotify` | new_robot_client/src/RobotTask.cpp:753-785 | Whatever the status, GAMMING in a match room; elsewhere INIT, and the robot leaves |
| `RobotStatus.RobotTask.RobotInit` | new_robot_client/src/RobotTask.cpp:103-109 | Back to INIT with nothing earned, as for a new robot |
| `RobotStatus.RobotTask.PutToWork` | new_robot_client/src/EventProcess.cpp:301-309 | A robot put to work starts from INIT with nothing earned, to test resuming a game iff asked to |

## Left out

- Level-1 and higher strategies (`lordTakeOut...`, `farmerTakeOut...`, `findChargeHandFirst...`, `getHandsMapSummaryLvl`, `findOppHighestChain`) are heuristics without a crisp promise: the hand they pick, and the split they leave behind, are arbitrary parameters of `RbtOutGetTakeOutCard`.
- `downFarmerTakeOutUpFarmerOnly1Card` edits the robot's own counts; such edits are not part of the model, so the results on noted counts are about counts changed by notifications only.
- Scores of splits (`getHandsMapSummary`, `compareHandMapSummary`, `calHandControl`): which split wins is an arbitrary flag, and every result holds whichever does; the scores count entries of the map that earlier look-ups merely created, empty ones included.
- WingedAnswers.SolidIff: what a chain with wings is answered when a solo that is not there is read is stated for any value read.
- HigherSearch.FindBestHigherHandFromPoints: acceptance, worth keeping and the final pick are arbitrary functions of the answer, in place of the charge test and the scores.
- ChargeHand.IsChargeHand: needs solo chains of at least two ranks; for a chain of four what lies before the table is arbitrary.
- RobotAI.OGLordRobotAI.RbtOutGetTakeOutCard: at other levels than 0 a lead is said to be exactly what the tail of the method makes of the arbitrary choice; that it conserves cards holds only under the condition of `LeadConservesIff`.
- Splitters.SortHandsWithBestKind: which of the three splits scores best is an arbitrary flag.
- RobotAI.OGLordRobotAI.RbtInInitCard: the summary of the winning split, which only the call score and the other levels read, is not kept; level 0 works without it.
- RobotAI.OGLordRobotAI.RbtInTakeOutCard: needs at most four cards of a rank in a play, since the classifier indexes an array of four rows by the count.
- RobotPools.RobotManager.AddRobot: the descriptors the system hands out, and when it stops handing out any, are a parameter; they are new ones, as the system's are; what happens to the status of the robot is `RobotStatus.RobotTask.PutToWork`.
- RobotPools.IdentitiesConserved: events concern connections still in the table; `RobotPools.RunSoundIff` is about all events.
- RobotPools.DeleteAfterServerClose: the second free of the buffer, after which the original's behaviour is not defined, is not part of the model.
- TimingWheel.WheelRefinesStamps: a close is the end of the connection object; what a delayed message that keeps the object alive does is in `IdleConnections`.
- LevelZeroRuns.RecvGetTakeOutCardNotify: delays and the encoding of the request are left out, and whether it can be built is a parameter; a lead of another level may lose cards, as `Sending.LeadConservesIff` says.
- LevelZeroRuns.RecvGetTrustNotify: whether the request to cancel trust can be built is a parameter.
- LevelZeroRuns.RecvTakeOutCardAck: whether the robot is in a game is a parameter here; the status itself is in `RobotStatus`.
- LevelZeroRuns.GameFromDeal: a seat leads only while it holds a card, and what is noted for it is what it asked for, or after one failure different cards it holds.
- Frames.InputBuffer.TakeFrame: a negative length, for which the original has no defined behaviour, is modelled as a stop; bytes past the end of the buffer are arbitrary.
- Frames.RoundTrip: an empty payload, which the loop takes for the end, is excluded, as are payloads of 2^31 bytes and more.
- RobotStatus.RobotTask.RobotProcess: message bodies arrive decoded, whether building a reply succeeds is a parameter, and delays, heart beats and what is sent are not part of the model.
- Rank 15 and the kinds for wild cards are declared by the original but never filled in; ranks are 0..14, and a hand's length is 0 and its kicker list empty where the original leaves them unset.
- The map of hands is passed by reference in the original and is an input and an output value here; count arrays inside the player object are sequence fields, so aliasing between them is not captured.
- `RbtResetData`, `RbtInSetCard`, call-score logic, the header robot, heart beats, sign-up windows, configuration, logging, sockets and message encoding: foreign libraries, or only easy members.
- `getHighestBomb`, `getHighestPairPoint` and the other small queries on counts: easy, and used by the strategies only.
- `robot_client/src/AIUtils.cpp` and `robot_client/src/OGLordRobotAI.cpp`: earlier copies of the same algorithms.
