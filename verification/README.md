# Disgracelands, verified

A Dafny model of the world rules in `internal/game` and of the loop in `internal/engine`, with proofs
of what those rules promise. One goroutine owns the world, so every operation is a sequential step on
a heap of rooms, characters and objects, and the model keeps that form: what the program updates in
place is a class here, what loops is a method with a loop. Each such method is specified by a function
on values, and the theorems are about those functions, over every input and every run.

`dafny verify dfyconfig.toml` checks everything.

## How it is laid out

- `ObjectGraph`, `Extraction`: where objects are, as one value (`State`): placements, ordered lists,
  the object table, its population index. The invariant `Inv` says that placements and lists agree,
  that containment is acyclic, and that the index is a scan. `InvBut` is the same with some objects
  in flight, which is what holds inside an extraction.
- `Carry`: the same on the heap. `Live.View()` is the value the heap shows; each mover is proved to
  take it where the specification says.
- `Weight`, `Belongings`, `Corpse`, `ArmourLedger`, `Decay`, `DecayOrder`: weights, deaths, what is worn and what
  rots, built on the movers.
- `ShopExpression`, `ShopStock`, `ShopTrading`, `ShopKeeping`, `ShopKinds`, `ShopBank`: what a shop buys, shelves
  and banks.
- `ZoneReset`, `ZoneRunning`: the reset interpreter as a function of its choices, and as it runs.
- `ZoneEffects`: what each reset command comes to, said of the world alone.
- `WorldRuns`: all of that happening to one world, in any order.
- `ColourCodes`, `Colour`, `ColourRoundTrip`: the codes, the scanner and the two conversions, and which
  text comes back through them.
- `Options`, `Sequences`, `Int32s`, `Texts`, `PathFinding`, `Follow`, `GameLoop`, `Affects`, `Experience`, `Keywords`, `Searching`,
  `HelpIndex`, `FlagNames`, `Presence`: one part of the game each.

Quantities the program gets from outside are parameters: elapsed intervals of the clock, who can see
whom, the tuned lifetime of a corpse, whether a word of a shop's expression matches. Choices it does
not determine (which of several containers a reset finds, the order of a map walk) are arbitrary.

## What does not hold

The proofs turned up places where the code does less than its comments or callers suggest. The code is
modelled as it is, with the exact condition:

- Extracting a container that is nowhere does not destroy what is two deep in it
  (`Extraction.ExtractLooseDestroysAll`, `Extraction.GrandchildSurvives`).
- The sorted count of a shop falls short exactly when an arrival that is one copy too many of something
  made there holds something (`ShopKeeping.SortedCount`, `ShopKeeping.FullCopyMiscounts`).
- The order in which the due corpses are walked shows: in the lists they spill into exactly when two
  things spilt end up in one place, unless both come out of one corpse that is in no other
  (`DecayOrder.ListsExactly`); in the reports exactly when one of them is in another and would be told of
  once out of it (`DecayOrder.ReportsExactly`); and, with one that is nowhere, even in where things are
  (`DecayOrder.NowhereIsSeen`). When all are somewhere nothing else depends on it
  (`Decay.DecayInAnyOrder`).
- A sale to a keeper with unsorted gifts in front can leave what is counted as sorted ungrouped, exactly
  when the thing sold does not slide well (`ShopKeeping.SlideKeepsStockGrouped`,
  `ShopKeeping.SaleSpoilsOrder`); over runs of trades, `ShopTrading.RunExactly`.
- When affects of one spell run out together, its message is sent only if what was kept before the last
  of them has been written over the others (`Affects.ToldIs`, `Affects.BothUntold`).
- Recomputing affects moves weight and height every time (`Affects.Idempotent`).
- Not all text survives demotion and promotion. What is lost (`ColourRoundTrip.Returns`): a sequence
  whose parameters close its code early; a brace right before a sequence, or before another brace when a
  sequence follows with no "}}" between; a doubled brace whose "}}" makes a code, or the word for a
  doubled brace, of what is between. Everything else survives (`ColourRoundTrip.PromotedDemoted`).
- Flag letters lose bits past the 52nd, and read three others instead (`FlagNames.LettersRead`).
- A word that is not all letters can be missed where it stands: exactly a word that is not found after
  one of its own beginnings, as "x-y" after "x-" (`Keywords.MissedExactly`, `Keywords.MissedBetween`).
- A worn object moved without Unequip takes its armour with it (`ArmourLedger.RunBare` counts
  it, `ArmourLedger.DroppedIsLost` is one).

## Model

| member | source | states |
|---|---|---|
| ObjectGraph.OnePlaceEach | internal/game/object.go:326-377 | under the invariant an object is in the list its placement names, once, and in no other; one that is nowhere is in none |
| ObjectGraph.DetachKeepsInv | internal/game/carry.go:27-65 | unlinking keeps the invariant, for any set of objects already taken out of their lists by an extraction in progress |
| ObjectGraph.MoveLists | internal/game/carry.go:96-149 | a move takes the object out of its one list, puts it at the head of the new one, and leaves every other list and its order as it was |
| ObjectGraph.MoveKeepsInv | internal/game/carry.go:96-180 | a move to a free, known place that makes no cycle keeps the whole invariant |
| ObjectGraph.TrackKeepsIndex | internal/game/carry.go:275-287 | the population index still equals a scan of the object table after an object is tracked, whether or not it already was |
| ObjectGraph.UntrackKeepsIndex | internal/game/carry.go:295-301 | the same when one is untracked |
| ObjectGraph.NestKeepsAcyclic | internal/game/carry.go:134-149 | putting an object in a container that is neither it nor inside it leaves every chain of containers finite |
| ObjectGraph.NestMakesCycle | internal/game/carry.go:134-149 | without the refusal there would be a cycle: the walk up refuses exactly what it must |
| ObjectGraph.MoveAllLists | internal/game/carry.go:218-240 | moving many objects one by one leaves them at the head of the new list in reverse, and every other list without them |
| Extraction.RunKeepsInv | internal/game/carry.go:27-301 | over every run of placing, nesting, wearing, taking off, making and extracting, from any sound state, each object stays in exactly one place both ends agree on, containment stays acyclic, everything placed is in the object table, and the index equals a scan |
| Extraction.EmptyIsSound | internal/game/live.go:174-207 | the world before anything is made is sound |
| Extraction.ApplyKeepsInv | internal/game/carry.go:96-243 | each single operation keeps that invariant |
| Extraction.ExtractPlacedEffect | internal/game/carry.go:218-243 | extracting something that is somewhere destroys it alone: its direct contents go, in reverse, to the head of the list of the room, holder or outer container; every other placement and list is unchanged; the invariant is kept even inside another extraction |
| Extraction.ContentsLand | internal/game/carry.go:218-243 | place by place: what was in it is on the floor it lay on, in the hands that held it, in the inventory of whoever wore it, or in the container around it, turned round and in front of what was there |
| Extraction.ArmourTaken | internal/game/carry.go:161-200 | wearing takes off the armour figure, and taking off gives back, three times the armour class on the body, twice on head and legs, once elsewhere, nothing for what is no armour |
| Extraction.SpillingOn | internal/game/carry.go:222-240 | partway through, the next of the contents never encloses the container they are going into, so the inner move cannot refuse |
| Extraction.ExtractLooseEffect | internal/game/carry.go:218-243 | extracting something that is nowhere destroys it and its direct contents; what was in those is left inside it |
| Extraction.ExtractLooseDestroysAll | internal/game/carry.go:218-243 | so everything inside is destroyed exactly when none of its direct contents holds anything; the intended whole-subtree reading is false otherwise |
| Extraction.GrandchildSurvives | internal/game/carry.go:218-243 | the failing case: an object two deep is still tracked afterwards, placed in a destroyed container |
| Extraction.ExtractInv | internal/game/carry.go:218-243 | either way the invariant holds afterwards |
| Extraction.CreateKeepsInv | internal/game/carry.go:258-271 | a new object is in no list, holds nothing, and disturbs nothing |
| Carry.RemoveObject | internal/game/carry.go:307-314 | the list without the first occurrence, order kept |
| Carry.Live.constructor | internal/game/live.go:174-207 | a new world shows the empty graph, which is sound |
| Carry.Live.Detach | internal/game/carry.go:27-65 | on the heap: exactly the unlinking of the specification |
| Carry.Live.ObjectToRoom | internal/game/carry.go:96-114 | on the heap: the move to the head of the room list, the invariant kept |
| Carry.Live.ObjectToChar | internal/game/carry.go:118-127 | the same for an inventory |
| Carry.Live.IsAround | internal/game/carry.go:139-143 | the walk up ends, and finds the object exactly when it is the container or around it |
| Carry.Live.ObjectToObject | internal/game/carry.go:134-149 | refuses exactly nil, itself and what encloses the container; otherwise moves |
| Carry.Live.Equip | internal/game/carry.go:161-180 | refuses exactly nil, a slot out of range and a filled slot; otherwise moves and takes the armour class off |
| Carry.Live.Unequip | internal/game/carry.go:184-200 | takes off what is in the slot, leaves it nowhere, and gives the armour class back |
| Carry.Live.ExtractObject | internal/game/carry.go:218-243 | the recursive heap procedure ends, with its invariant broken for the objects in flight, in exactly the specified state, with the contents in front in the field of the holder, wearer or container, or on the floor |
| Carry.Live.Track | internal/game/carry.go:275-287 | on the heap: the object table and its index |
| Carry.Live.Untrack | internal/game/carry.go:295-301 | on the heap: the object table and its index |
| Carry.Live.NewObject | internal/game/carry.go:258-265 | nil exactly when there is no such prototype; otherwise a fresh object of that kind, nowhere |
| Carry.Live.NewBareObject | internal/game/carry.go:268-271 | a fresh object of no kind, nowhere |
| Weight.TotalWeight | internal/game/object.go:511-520 | the recursion ends and is, in 32 bits, the sum of the weights of everything enclosed at any depth, each counted once |
| Weight.EnclosedSplits | internal/game/object.go:511-520 | what a container encloses is itself and what its contents enclose |
| Weight.SiblingsDisjoint | internal/game/object.go:511-520 | two objects in one container enclose nothing in common |
| Weight.CarriedWeight | internal/game/corpse.go:109-121 | the sum, in 32 bits, over everything carried and worn and everything in it, each thing once |
| Belongings.GatheredEffect | internal/game/corpse.go:63-73 | moving inventory then equipment off a body moves exactly what was on it, in that order, and gives back to the armour figure the sum of what every slot was worth |
| Corpse.DropEverything | internal/game/death.go:62-74 | the room gets the inventory and the equipment, the body keeps its gold and has nothing, and nothing else moves |
| Corpse.MakeMoney | internal/game/corpse.go:85-105 | always one fresh pile, in no list, worth exactly the amount, whatever the amount |
| Corpse.LaidEffect | internal/game/corpse.go:39-82 | conservation: the corpse on the floor holds exactly the old inventory, the old equipment and, when there was gold, one pile worth it; the victim has nothing; the armour figure is what it was bare; all else is unmoved |
| Corpse.LeftBare | internal/game/corpse.go:74-80 | the victim is left no gold once there is a pile of it, and the armour figure it would have bare |
| Corpse.MakeCorpse | internal/game/corpse.go:39-82 | the heap procedure does that, the corpse weighs the victim and everything on it, and lasts as the corpse of a mobile or of a player does |
| ArmourLedger.ApplyBare | internal/game/carry.go:161-200 | armour figure plus what is worn is changed by an operation only by what it takes off a body without Unequip |
| ArmourLedger.RunBare | internal/game/carry.go:27-200 | over any run the bare armour figure is conserved exactly but for those removals, whose worth is counted |
| ArmourLedger.DroppedIsLost | internal/game/carry.go:96-180 | a losing run: armour made, worn and dropped without being taken off costs its wearer what it was worth in its slot |
| Decay.DecayEffect | internal/game/corpse.go:140-162 | when corpses that are somewhere rot only they are lost: what was in them, however deep, is where the first thing around it that stays is |
| Decay.DecayInAnyOrder | internal/game/corpse.go:140-162 | the object table is walked in map order: when every corpse that is due is somewhere, where each thing is, the records, the table and what each list holds do not depend on it |
| DecayOrder.StaysInOrder | internal/game/corpse.go:140-162 | nor, then, does the order of what stays: every list that is inside nothing that rots ends as it was, less what rotted, after whatever was spilt in front |
| DecayOrder.ListsExactly | internal/game/corpse.go:140-162 | nor does any list, whatever is spilt, exactly when no two things that are spilt end up in one place, unless both come directly out of one corpse that is directly in no other that is due |
| DecayOrder.OrderIsSeen | internal/game/corpse.go:140-162 | the failing case: two corpses on one floor, something in each; what was in the last to go is in front |
| DecayOrder.ReportsExactly | internal/game/corpse.go:120-162 | nor does what is reported of each corpse, exactly when each that is directly in another that is due ends, but for going itself, where a report names neither room nor holder |
| DecayOrder.ReportIsSeen | internal/game/corpse.go:120-162 | the failing case: a corpse in a corpse on a floor is reported with the floor or without, by which went first |
| DecayOrder.NowhereIsSeen | internal/game/corpse.go:140-162 | with a corpse due that is nowhere even placements depend on the walk: what was in a corpse inside it is left in it or destroyed with it |
| Decay.DecayObjects | internal/game/corpse.go:140-162 | each corpse in the table is one tick older, those at their last tick are extracted and reported with where they were, and nothing else happens |
| Decay.DecayFor | internal/game/corpse.go:140-162 | over a number of calls, with every corpse somewhere: one whose timer is n is there, n fewer, before the n-th call and gone from it on, and nothing else leaves the table |
| Decay.ReportSays | internal/game/corpse.go:120-162 | a report names the room of what lay in one, the holder or wearer of what was on a body, and neither otherwise |
| PathFinding.FindFirstStep | internal/game/graph.go:50-109 | error exactly for an unknown room, already-there exactly for equal rooms, no-path exactly when no walk leads to the target; otherwise the lowest direction that begins a shortest walk. A walk is a list of rooms, each with an exit to the next that is open or, when trails pass doors, shut, and none but the first losing trails |
| PathFinding.LeadsIs | internal/game/graph.go:66-82 | the edges the search takes are those walks, step by step |
| PathFinding.NoShorter | internal/game/graph.go:60-109 | no walk to an unmarked room is shorter than the search has gone |
| PathFinding.Found | internal/game/graph.go:84-108 | the direction inherited by the node that reaches the target begins a shortest walk, and no lower direction does |
| PathFinding.NotFound | internal/game/graph.go:74-109 | an empty queue means every reachable room was marked |
| ShopExpression.EvaluateOperation | internal/game/shopstate.go:557-588 | one reduction of the two stacks, empty pops included |
| ShopExpression.EvaluateShopExpression | internal/game/shopstate.go:485-554 | ends on every string, and computes the value of the abstract two-stack run |
| ShopExpression.Settled | internal/game/shopstate.go:485-588 | reducing after a subexpression leaves on the stacks what stands for its truth value, whatever is below and whichever operator comes next |
| ShopExpression.EvaluatesTrees | internal/game/shopstate.go:445-554 | every expression tree, in any spelling of its operators and with any blanks, evaluates to its truth value under every valuation of its words |
| ShopExpression.EvaluatesShown | internal/game/shopstate.go:445-554 | a tree printed with only the parentheses precedence needs evaluates to its meaning |
| ShopExpression.SpellingIsFree | internal/game/shopstate.go:443-470 | which of its spellings an operator is written in makes no difference to what any text, well formed or not, is worth |
| ShopExpression.ScanRefusesStray | internal/game/shopstate.go:531-540 | scanning gives up exactly on a closing parenthesis that closes nothing |
| ShopExpression.StrayIsFalse | internal/game/shopstate.go:531-540 | and the answer is then false |
| ShopStock.SameIsEquivalence | internal/game/shopstate.go:363-386 | being interchangeable is an equivalence |
| ShopStock.SameIsProduced | internal/game/shopstate.go:363-409 | interchangeable things are produced or not produced together |
| ShopKinds.SameIsKind | internal/game/shopstate.go:359-386 | two things are interchangeable exactly when prototype, cost, flags and all six affect slots agree |
| ShopKinds.ProducesKind | internal/game/shopstate.go:388-409 | a shop makes exactly what agrees in all of these with a prototype it makes from |
| ShopKinds.SlideTellsKinds | internal/game/shopstate.go:691-707 | a thing is slid behind one of its kind and before one of another |
| ShopKinds.GroupedByKind | internal/game/shopstate.go:603-612 | grouped stock has nothing between two of a kind |
| ShopKinds.DestroyedExactly | internal/game/shopstate.go:676-708 | sliding destroys exactly what is of a kind made there; anything else is tracked and in the keeper's list |
| ShopKinds.ForeignStays | internal/game/shopstate.go:630-668 | after a sort everything that was counted, and every arrival of a prototype the shop does not make from, is still in the list |
| ShopKinds.PrototypesTogether | internal/game/shopstate.go:630-668 | of stock as it was made, one that spills nothing leaves things of one prototype together |
| ShopStock.SlideKeepsGrouped | internal/game/shopstate.go:691-707 | splicing next to the first like item keeps every kind adjacent |
| ShopStock.ShelvesSorted | internal/game/shopstate.go:630-668 | shelving any arrivals onto grouped stock leaves it grouped, with everything kept but surplus copies of produced goods, when no such copy holds anything |
| ShopStock.SpiltIs | internal/game/shopstate.go:645-667 | nothing is spilt exactly when no arrival that is one too many, by the stock and what came before it, holds anything |
| ShopStock.CountTrailsList | internal/game/shopstate.go:645-667 | the sorted count falls behind the list by exactly what destroyed items spilt |
| ShopKeeping.SlideShopObject | internal/game/shopstate.go:676-708 | the heap procedure: extracts produced goods, otherwise splices and counts |
| ShopKeeping.SlideKeepsStockGrouped | internal/game/shopstate.go:676-708 | sliding in something not made here leaves what is counted as sorted in order exactly when nothing stands unsorted before that, or the first of its kind is in it, or what ends up just before it starts a kind there or is of its first; whatever stands unsorted in front |
| ShopKeeping.ProducedSlides | internal/game/shopstate.go:680-683 | something made here that a customer has let go of leaves the list alone; one that is somewhere leaves it as any extraction does |
| ShopKeeping.SaleSpoilsOrder | internal/session/shops.go:415-433 | the failing sale: a gift like what is counted stands unsorted in front, something of a new kind is sold, and the counted part is no longer grouped |
| ShopTrading.DoExactly | internal/session/shops.go:258-433 | a gift, a sale, a purchase, a theft, a sort or a reset of the count leaves the counted part in order exactly when its guard holds before it |
| ShopTrading.RunExactly | internal/session/shops.go:25-485 | over any run of these the counted part is in order all along exactly when each finds its guard true |
| ShopTrading.CalmIsSafe | internal/session/shops.go:258-485 | the guards hold of sales and thefts while nothing stands unsorted, of gifts while no more is counted than there is, and of sorts that spill nothing |
| ShopTrading.DeliveredExactly | internal/game/shopstate.go:630-668 | a sort leaves the counted part in order exactly when each arrival, where it finds the shelf, keeps it so |
| ShopKeeping.SlideIsSale | internal/game/shopstate.go:676-708 | those sales are what sliding does to the keeper's list |
| ShopKeeping.SortIsTrade | internal/game/shopstate.go:630-668 | and those sorts what sorting does |
| Extraction.ExtractLooseLists | internal/game/carry.go:218-243 | something destroyed while nowhere leaves every list outside it as it was |
| ShopKeeping.SortShopObjects | internal/game/shopstate.go:630-668 | the heap procedure ends in the sorted state the specification gives, for any keeper and any count; every list but the keeper's is what it was, in order, unless it was inside a copy that was destroyed |
| ShopKeeping.SortedWell | internal/game/shopstate.go:630-668 | in that state, when no surplus arrival holds anything, every kind is adjacent and nothing is lost but the surplus copies |
| ShopKeeping.SortedCount | internal/game/shopstate.go:645-667 | the count equals the length of the list exactly when no surplus arrival holds anything |
| ShopKeeping.FullCopyMiscounts | internal/game/shopstate.go:645-667 | the failing delivery: a second copy of something made here, with one thing in it, leaves two things and a count of one |
| ShopBank.Till.Settle | internal/game/shopstate.go:211-227 | settling neither makes nor loses money, and puts away or draws exactly what the limits ask |
| ShopBank.NothingIsLost | internal/game/shopstate.go:211-227 | over any trading pocket and bank are together what came in, and the bank is never overdrawn |
| ZoneReset.StepKeeps | internal/game/reset.go:90-246 | one command keeps the graph sound and both indexes equal to a scan, and makes a kind more numerous only from below its cap |
| ZoneReset.ResetKeeps | internal/game/reset.go:80-249 | after any reset each population is no larger than before or than the largest cap of a command making its kind, whatever is created and found |
| ZoneEffects.ThingMadeExactly | internal/game/reset.go:121-223 | a command makes a thing, one, of its kind, exactly when it is asked to, knows the kind, finds it below its cap and has the mobile, slot or container it needs; otherwise the world is as it was |
| ZoneEffects.MobileMadeExactly | internal/game/reset.go:107-119 | the same of a mobile: first in its room, counted, with its gold and armour and nothing on it, and the one later commands are about |
| ZoneEffects.MadeForRoom | internal/game/reset.go:121-141 | a thing for a room is at the head of its floor, or nowhere but in the table when there is no room; every other list is as it was |
| ZoneEffects.MadeForHands | internal/game/reset.go:143-159 | a thing given is at the head of the last mobile's inventory |
| ZoneEffects.MadeToWear | internal/game/reset.go:161-192 | a thing to wear is in its slot, and off the armour figure, when the slot is free; otherwise it is carried and the slot is as it was |
| ZoneEffects.MadeForContainer | internal/game/reset.go:194-213 | a thing to put is at the head of the contents of a container of the kind asked for |
| ZoneEffects.RemovedFirst | internal/game/reset.go:215-219 | a removal destroys the first of its kind on the floor, alone, and nothing when there is none |
| ZoneEffects.DoorLeft | internal/game/reset.go:221-245 | a door is left open, shut or locked, and nothing else changes |
| ZoneEffects.ConditionalsSkip | internal/game/reset.go:88-99 | after a failure any run of conditional commands changes nothing |
| ZoneEffects.DressedMobile | internal/game/reset.go:107-192 | in a reset, a mobile made by one command wears what the next makes it wear |
| ZoneReset.AddMobileKeepsIndex | internal/game/reset.go:536-547 | the mobile index equals a scan after addMobile |
| ZoneReset.DropMobileKeepsIndex | internal/game/reset.go:556-564 | and after dropMobile |
| WorldRuns.HappenKeeps | internal/game/carry.go:27-301 | every mover, every object made or tracked, every body that arrives, every mobile listed, dropped or spawned, every death, decay, sorting of stock and zone reset keeps the object graph and both indexes sound |
| WorldRuns.HistoryKeeps | internal/game/reset.go:80-282 | so does any history of them, in any order, from any sound world |
| WorldRuns.Reachable | internal/game/reset.go:536-564 | in every world so reached from the empty one each object is listed once, where it is, and both indexes equal a scan |
| ZoneRunning.Population.Add | internal/game/reset.go:536-547 | on the heap; a mobile already listed is not counted twice |
| ZoneRunning.Population.Drop | internal/game/reset.go:556-564 | on the heap; a mobile not listed is not counted off |
| ZoneRunning.SpawnMobile | internal/game/reset.go:258-282 | nil exactly when prototype or room is missing; otherwise a fresh mobile at the head of the room and counted |
| ZoneRunning.FindObjectByVnum | internal/game/reset.go:572-579 | some tracked object of the kind, nil exactly when there is none |
| ZoneRunning.FindObjectInRoom | internal/game/reset.go:581-588 | the first of the kind in the room |
| ZoneRunning.Perform | internal/game/reset.go:107-245 | the switch: each command's tests in their order, and what it then does |
| ZoneRunning.RunCommand | internal/game/reset.go:88-105 | stopping, skipping a conditional, and disabling a command in place |
| ZoneRunning.ResetZone | internal/game/reset.go:80-249 | the heap procedure is a run of the interpreter for some choices that fit, so it ends with the graph sound, both indexes exact and every cap respected |
| ZoneRunning.ResetStopped | internal/game/reset.go:91-93 | nothing after a stop command has any effect |
| ColourCodes.NormaliseSGR | internal/game/colour.go:256-276 | computes the normal form; a list with anything but numbers in it is returned as it was |
| ColourCodes.SortInPlace | internal/game/colour.go:266-270 | the nested loops leave the numbers in order, none gained or lost |
| Texts.AtoiItoa | internal/game/colour.go:260-274 | a 64-bit number is read back as it was written |
| Texts.SomeNumbers | internal/game/colour.go:260-264 | numerals are decimal, the sign before them |
| ColourCodes.NormalNumbers | internal/game/colour.go:256-276 | the normal form says the same numbers, in order |
| ColourCodes.NormalSameNumbers | internal/game/colour.go:253-276 | two parameter lists have one normal form exactly when they hold the same numbers, in whatever order and spelling |
| ColourCodes.NormalIsNormal | internal/game/colour.go:256-276 | normalising twice is normalising once |
| ColourCodes.NameOfCode | internal/game/colour.go:49-77 | each name is found again from its own code: the two tables are inverse |
| Colour.ParseColour | internal/game/colour.go:92-139 | the scanner loop yields the token list of its specification for every string |
| Colour.RenderANSI | internal/game/colour.go:148-163 | the concatenation of what each token shows at that level |
| Colour.Strip | internal/game/colour.go:178-184 | the text of the tokens, which is rendering without colour |
| Colour.DemoteANSI | internal/game/colour.go:223-251 | the loop rewrites each complete sequence and copies the rest |
| ColourRoundTrip.CodeSeen | internal/game/colour.go:106-133 | a known code between braces is read as that code, whatever follows |
| ColourRoundTrip.WrittenSeen | internal/game/colour.go:92-251 | a sequence whose parameters hold no early close is written as one code, which is read back as the sequence in its canonical spelling |
| ColourRoundTrip.PromotedDemoted | internal/game/colour.go:148-284 | for all text, demoting and promoting again gives the text with each sequence in its canonical spelling exactly when the text survives: a condition on its braces and on the parameters of its sequences |
| ColourRoundTrip.StrippedDemoted | internal/game/colour.go:178-251 | stripping what was demoted gives the text without its sequences, for all text that survives |
| ColourRoundTrip.StrippedAnyway | internal/game/colour.go:178-251 | and for some that does not: a sequence cut short that leaves another code behind |
| ColourRoundTrip.RoundTrip | internal/game/colour.go:148-284 | text comes back unchanged exactly when it survives and every sequence is unnamed or already canonical |
| ColourRoundTrip.PlainSurvives | internal/game/colour.go:216-251 | brace-free text survives |
| ColourRoundTrip.DemotedStable | internal/game/colour.go:216-251 | what was promoted demotes to the same codes again |
| ColourRoundTrip.BracesAreLost | internal/game/colour.go:223-251 | two losses: a code already in the text becomes a sequence, and a brace before a sequence takes its code apart |
| Follow.AddKeepsForest | internal/game/follow.go:50-72 | following keeps the forest exactly when the walk up from the leader does not meet the follower |
| Follow.AddedFirst | internal/game/follow.go:64-72 | the newest follower is first and nobody else's list changes |
| Follow.ExceptKeepsOrder | internal/game/follow.go:87-96 | leaving a list leaves the rest in their order |
| Follow.StopKeepsForest | internal/game/follow.go:82-104 | stopping always keeps it |
| Follow.DieEffect | internal/game/follow.go:108-123 | afterwards no link to or from the dead is left, and every other link and list is as it was |
| Follow.RunKeepsForest | internal/game/follow.go:50-123 | over every run of joining after asking, stopping and dying, each follower is listed once by exactly its master and no chain of masters returns to its start |
| Follow.FreedIsFree | internal/game/follow.go:97-103 | whoever stops following is neither charmed nor in a group, whatever they wear |
| Follow.FreedElse | internal/game/follow.go:97-103 | and loses nothing else: every other flag of its own, every other spell, and what those and its equipment raise |
| Follow.Company.CircleFollow | internal/game/follow.go:50-57 | the walk ends, and answers exactly whether the follower is at or above the leader |
| Follow.Company.AddFollower | internal/game/follow.go:64-72 | no change when either is nil or the follower has a master; otherwise both ends of the link, newest first; in order afterwards exactly when no circle was closed |
| Follow.Company.StopFollowing | internal/game/follow.go:82-104 | both ends of the link come undone, and the record loses charm and group |
| Follow.Company.DieFollower | internal/game/follow.go:108-123 | returns the old followers in order, unlinks all of them and frees exactly their records |
| GameLoop.Engine.Do | internal/engine/engine.go:129-139 | refused, and nothing changed, exactly when the queue is full |
| GameLoop.Engine.DrainWaiting | internal/engine/engine.go:243-259 | runs exactly what was waiting when the tick began, in order, whatever those tasks queue |
| GameLoop.Engine.Dispatch | internal/engine/engine.go:267-272 | runs each entry that fell due since the last pulse, once |
| GameLoop.Engine.Tick | internal/engine/engine.go:222-305 | pulse, missed count, drained tasks and dispatched work of one tick, keeping: nothing accepted is lost, repeated or reordered, and the pulse is ticks plus missed |
| GameLoop.Engine.Drain | internal/engine/engine.go:323-332 | ends with the queue empty and everything ever accepted run |
| GameLoop.OfferedIs | internal/engine/engine.go:129-139 | of tasks offered one after another, as many as there is room for are taken, from the front |
| GameLoop.DueIsCrossing | internal/engine/engine.go:264-270 | an entry is due exactly on the ticks whose step reaches or passes one of its multiples |
| GameLoop.RunsAre | internal/engine/engine.go:264-272 | runs and skipped multiples are together the pulse divided by the interval |
| GameLoop.RunsExact | internal/engine/engine.go:264-272 | an entry ran once for each multiple exactly when no tick passed two, in particular when no step exceeds its interval, and never more often |
| GameLoop.PulseIs | internal/engine/engine.go:225-231 | the pulse is the least that moves at every tick and is never behind real time |
| GameLoop.NeverLate | internal/engine/engine.go:225-231 | the pulse is the number of ticks exactly when no tick came late |
| GameLoop.RunTicks | internal/engine/engine.go:222-305 | the loop over any run of ticks: the pulse after each is the specified one, and what is missed is what it is ahead of them |
| Affects.PlayerRecord.RecomputeAffects | internal/game/affect.go:170-233 | the loops compute the figures, flags, weight and height of the specification, in 32-bit arithmetic |
| Affects.PlayerRecord.AddAffect | internal/game/affect.go:87-90 | the affect is last in the list and everything is recomputed |
| Affects.PlayerRecord.RemoveAffectsOf | internal/game/affect.go:108-124 | keeps the others in order, and recomputes exactly when something was removed |
| Affects.PlayerRecord.JoinAffect | internal/game/affect.go:132-154 | merges with the first affect of the spell and location, or adds |
| Affects.PlayerRecord.AgeAffects | internal/game/affect.go:297-326 | which affects are left, a tick older, and which ran out, with what is said of each |
| Affects.AgeInPlace | internal/game/affect.go:298-319 | the loop, which writes what it keeps over the list it is still reading and counting |
| Affects.ToldIs | internal/game/affect.go:309-316 | the end of an affect is told exactly when it is the last of its spell, all of the spell before it have run out, and what was kept by then has been written over all of those |
| Affects.ToldOnce | internal/game/affect.go:309-316 | no spell is told twice |
| Affects.BothUntold | internal/game/affect.go:309-316 | two affects of one spell at the head of the list that run out together are told not at all |
| Affects.FiguresAre | internal/game/affect.go:170-283 | each figure is the unaffected one plus the sum of all modifiers at its location, then clamped |
| Affects.AbilitiesAre | internal/game/affect.go:203-233 | each ability ends between 0 and 18, or 25 for a mobile, uncut in between; a player's strength above 18 adds ten a point to the percentile, up to 100 |
| Affects.FlagsAre | internal/game/affect.go:170-200 | a flag is up exactly when it is the character's own or something worn or some spell raises it |
| Affects.WhatCounts | internal/game/affect.go:183-198 | nothing on adds nothing; a thing put on adds all its modifiers and a spell its one |
| Affects.OrderDoesNotMatter | internal/game/affect.go:155-233 | any reordering of the affects recomputes to the same record |
| Affects.RecomputeTwice | internal/game/affect.go:170-233 | a second recomputation changes no figure; weight and height move again by the same sums |
| Affects.Idempotent | internal/game/affect.go:170-265 | so recomputing is idempotent exactly when the modifiers of weight and of height add up to nothing |
| Affects.AddThenRemove | internal/game/affect.go:87-124 | adding an affect of a new spell and removing that spell leaves what recomputing would have, but for weight and height |
| Affects.ReloadedSame | internal/game/affect.go:367-408 | saving and loading gives back the figures exactly when the unaffected armour class, hitroll and damroll are the defaults; flags and affects always |
| Affects.ReloadedSettles | internal/game/affect.go:367-408 | after the first load, saving and loading changes nothing more |
| Affects.SnapshotDoubles | internal/game/affect.go:381-408 | a snapshot taken after recomputing counts every modifier twice, at every location but the clamped abilities |
| Affects.JoinKeepsOneEach | internal/game/affect.go:132-154 | joining never makes a second affect of one spell at one location |
| Affects.JoinAdds | internal/game/affect.go:132-154 | an accumulating join adds its modifier at its location and nothing elsewhere, merged or not |
| Affects.JoinedIs | internal/game/affect.go:132-154 | the one joined goes, the others stay in order, and last is the new one with the times or modifiers of both when they accumulate |
| Affects.AgedTimesLeft | internal/game/affect.go:297-326 | an affect of duration d lasts exactly d ageings, one of a negative duration none; a permanent one stays |
| Experience.Character.GainExperience | internal/game/experience.go:80-123 | the loop computes the specified standing, the levels gained, what was applied and whether the cap bit |
| Experience.Character.GainExperienceRegardless | internal/game/experience.go:189-209 | no caps, never below zero, up as far as the experience reaches, mobiles not at all |
| Experience.Character.constructor | internal/game/class.go:440-442 | a new character is on their way |
| Experience.OneBandOn | internal/game/experience.go:93-101 | in every class table a tenth of a band never spans the next |
| Experience.ClimbIs | internal/game/experience.go:106-111 | the climb stops at the top or at the first level out of reach |
| Experience.RisesAt | internal/game/experience.go:93-111 | the experience that makes the second level, and the first immortal one, in each class |
| Experience.RisesOn | internal/game/experience.go:93-111 | and the levels above, in all |
| Experience.GainsAre | internal/game/experience.go:80-104 | what one kill gives at most: a tenth of the band, class by class |
| Experience.ChangeKeepsMortal | internal/game/experience.go:80-123 | a gain or loss keeps 1 <= level <= 30 and experience below the next level, and raises a level exactly when the capped gain covers what was needed |
| Experience.AlwaysMortal | internal/game/experience.go:80-123 | so does every sequence of gains and losses, one level at most each |
| Keywords.MatchesKeywords | internal/game/carry.go:364-405 | the nested cursors end on every input and agree with the specification |
| Keywords.ScanFinds | internal/game/carry.go:364-405 | what is found stands where a keyword may begin, followed by no letter; a word of letters standing there is found |
| Keywords.ScanIs | internal/game/carry.go:364-405 | a word of letters is matched exactly when it equals, but for case, a maximal run of letters |
| Keywords.CaseIsFree | internal/game/carry.go:355-405 | what is found is found whatever the case of word and keywords |
| Keywords.LowerIs | internal/game/carry.go:355-405 | letters are what has two cases, and those are all that is overlooked |
| Keywords.TrimIs | internal/game/carry.go:364-370 | trimming takes the blanks off both ends and nothing else |
| Keywords.MissedExactly | internal/game/carry.go:344-405 | a word is found in every list of keywords where it stands, and in no other, exactly when it has a blank in it or is found after each of its own beginnings that ends in no letter |
| Keywords.MissedBetween | internal/game/carry.go:344-405 | two letters with anything but a letter or a blank between are missed after themselves |
| Keywords.SomeMissed | internal/game/carry.go:344-405 | so "x-y" and "x1y" can be missed, and "a-a" cannot |
| Searching.NumberIsRead | internal/game/carry.go:452-470 | a count before the first dot is read back, and the rest kept |
| Searching.NotANumber | internal/game/carry.go:452-470 | anything else before the dot reads as zero |
| Searching.CountedOn | internal/game/live.go:569-583 | one count over two lists is one count over the one after the other, for every count but zero |
| Searching.NamedIs | internal/game/live.go:744-758 | a word of letters names whoever's whole name it is or one of whose keywords, in any case |
| Searching.MatchesIs | internal/game/object.go:535-543 | and the things one of whose keywords it is |
| Searching.OneHit | internal/game/live.go:618-637 | of one thing, what answers is that thing when it is a match and nothing when not |
| Searching.Search.CharIn | internal/game/live.go:618-637 | the n-th visible match and the count left; with zero, the first visible player of that exact name |
| Searching.Search.CharInBoth | internal/game/live.go:569-637 | one list and then another find what one search of the two joined would, for every count |
| Searching.Search.ObjectIn | internal/game/live.go:728-742 | the n-th visible match and the count left; with zero, nothing |
| Searching.Search.EquippedObject | internal/game/live.go:686-701 | the n-th match worn, seen or not |
| Searching.Search.ObjectInLists | internal/session/genericfind.go:107-121 | several lists one after another find what one search of them joined would |
| Searching.GenericFind | internal/session/genericfind.go:68-123 | characters, equipment and lists share one count: the answer is the n-th of everything that answers, in that order |
| HelpIndex.PrefixBlock | internal/game/help.go:176-191 | keywords that begin alike lie together in the order |
| HelpIndex.NotAfterIs | internal/game/help.go:163-174 | the order is that of the first byte in which two keywords differ |
| HelpIndex.AnswersInAnyCase | internal/game/help.go:192-204 | a query answers to the keywords that begin with it in any case of the letters, and to no other |
| HelpIndex.NewHelpIndex | internal/game/help.go:163-174 | one row for each keyword of each entry, in order |
| HelpIndex.Lookup | internal/game/help.go:192-204 | found exactly when some row begins with the query, and then the first, whose keyword is least |
| HelpIndex.Ask | internal/game/help.go:163-204 | from the entries: found exactly when some keyword of some entry begins with the query, and an entry with the least such keyword |
| FlagNames.ParseFlagLetters | internal/game/flags.go:54-86 | the loop reads digits as a number, anything else as letters, and reports the rest |
| FlagNames.FlagLetters | internal/game/flags.go:105-126 | the loop writes each bit in order |
| FlagNames.LetterIs | internal/game/flags.go:105-126 | the letters of the first fifty-two bits are the small ones and then the capitals |
| FlagNames.LettersRead | internal/game/flags.go:54-126 | what is read back of any word: its first 52 bits, and three stray ones if it had others |
| FlagNames.LettersRoundTrip | internal/game/flags.go:54-126 | so the letters say the word exactly when it has no bit past the 52nd |
| FlagNames.NameBits | internal/game/bitnames.go:154-167 | the loop splits a word into names, in bit order, and unnamed bits |
| FlagNames.ParseBitNames | internal/game/bitnames.go:175-185 | the loop resolves names, and reports those it does not know |
| FlagNames.NamesRoundTrip | internal/game/bitnames.go:146-185 | names and raw bits are the whole word, disjoint, with nothing unknown, for every word exactly when the table names no two bits alike |
| FlagNames.ValueRoundTrip | internal/game/bitnames.go:209-241 | a value comes back exactly when what stands for it is not found in the table before it |
| Presence.EnterEffect | internal/game/live.go:440-455 | whoever enters is at the head of that room and in no other; nobody else moves or changes order |
| Presence.RunKeepsOrder | internal/game/live.go:440-485 | over every run each body is listed once at most, in the room it is in |
| Presence.House.EnterRoom | internal/game/live.go:440-455 | on the heap; refused exactly when there is no such room |
| Presence.House.LeaveRoom | internal/game/live.go:471-485 | on the heap; an emptied room is dropped |

## Left out

- Integer widths: 32-bit wrap-around is modelled in `Affects`, `Experience`, `Weight` and `Corpse`, 64-bit
  range in `Texts` and `FlagNames`; object counts, costs, gold, armour and pulses elsewhere are unbounded.
- Carry.Live.Equip: the fit of an object to a slot, and recomputing affects after it, are not part of the
  object graph; the armour figure is.
- Carry.Live.Unequip: binding the equipment to the record, and recomputing affects after it.
- Carry.Live.Detach: the dirty flag of a house is not modelled.
- Carry.Live.ObjectToRoom: the dirty flag of a house is not modelled.
- Carry.Live.NewObject: names, descriptions, values and object affects beyond what shops compare are
  not copied, since nothing proved here reads them.
- ZoneRunning.SpawnMobile: the new mobile's rolled statistics are not modelled, only its armour and gold;
  it enters a room it was not in before.
- ZoneRunning.Perform: the text of a reset problem is counted, not written.
- ShopExpression.EvaluateShopExpression: whether a word matches an object is an arbitrary predicate.
- ShopBank.Till.Settle: a keeper without a record, for whom nothing happens; gold does not wrap.
- Presence.House.EnterRoom: the table of characters by name, and binding a record to its equipment.
- Affects.PlayerRecord.AgeAffects: whoever else still holds the list that is written over.
- Experience.Character.GainExperience: what advancing does to the character beside the level.
- GameLoop.Engine.Drain: tasks that go on queueing others without end, for which it does not end.
- GameLoop.Engine.Tick: the clock, metrics, logging and recovery from a panicking task; what other
  goroutines queue while a task runs counts as queued by it, and a task queues finitely many.
- HelpIndex.NewHelpIndex: folding case beyond ASCII, and the parsers of help files.
- HelpIndex.Lookup: folding case beyond ASCII.
- HelpIndex.Ask: folding case beyond ASCII.
- Searching.Search.CharIn: who is visible is an arbitrary predicate.
- Searching.GenericFind: the search of the whole world for characters, which looks through the viewer's
  room once more and then takes an exact name whatever the count, and which of the places the answer
  was found in.
- Keywords.MatchesKeywords: trimming blanks beyond ASCII.
- Decay.DecayEffect: a corpse due that is nowhere, whose contents go with it.
- Decay.DecayInAnyOrder: the same; `DecayOrder.NowhereIsSeen` shows it could not hold.
- DecayOrder.StaysInOrder: the same.
- DecayOrder.ListsExactly: the same.
- DecayOrder.ReportsExactly: the same.
- Decay.DecayObjects: what is said to the room.
- Colour.ParseColour: display width and the balance check of the linter.
- Floating-point prices, saving throws, spells, fighting, messages, credentials and file formats.
