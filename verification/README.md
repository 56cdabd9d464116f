# Card-game servers: verified model

This project models, in Dafny 4.11, the parts of the card-game servers on which
several servers or several rules depend, and proves what they promise. Each module
follows one source file or one part of it; a file holds one module.

* **JSON** (`JsonValue`, `JsonOrder`, `JsonNumber`, `JsonText`, `JsonGrammar`,
  `JsonLayout`, `JsonMembers`, `JsonEscapes`, `JsonAccepts`, `JsonWriter`,
  `JsonStyledWriter`, `JsonFormat`, `JsonRoundTrip`, `JsonReader`, `Utf8`): the reader as a class over a byte buffer, proved to compute a grammar
  written as functions; both writers as classes over a document, proved to produce
  layouts; and the round trips, proved once for every layout. The format is that of
  RFC 8259 with the reader's leniencies: comments are skipped, a lone minus sign is
  zero, and after a comment any token passes for a member separator.
* **Poker** (`PokerRanking` to `PokerStrength`, `PokerSorts`): the standard ranking of hands as an
  independent definition, the evaluator as a class, and the proof that its greedy
  choice is best among all five-card hands. Ranks are counted, suits and straights
  are tested on the counts, and a hand's score is its category with the ranks that
  decide. `ThreeCards` and `ThreeKinds` are the three-card game, `HaloDeal` the exchange of hands that
  sorts by it.
* **Texas hold'em table** (`TexasPools`, `TexasSeats`, `TexasTable`, `TexasRoom`,
  `TexasGame`, `TexasPlayed`, `TexasBetween`, `TexasPayout`, `TexasHand`, `TexasUnpaid`): the table as a
  value, what each move makes of it, and where every coin is after any run; the betting
  actions and the side pools as a class proved to make these moves; the stages of a hand;
  the payment by the evaluator. Player states are sets of the flag bits declared in `Common/CommonDefine.h`.
* **Workers and requests** (`TaskPool`, `TaskProgress`, `DbDispatcher`, `AsyncQueue`, `AsyncExamples`,
  `ClubRooms`): the worker pool as a state machine with a program counter for every
  thread; the database dispatcher, the retrying request queue, and the room creation of
  the clubs that share it as classes.
* **Text, rooms, servers, ids** (`Utf8Split`, `RoomDirectory`, `ServerSlots`,
  `MailIds`).
* **Shared** (`Wrappers`, `StdSort`, `StdVector`): an option type, the contract of
  `std::sort` (an ordered permutation; the comparators are assumed to be strict
  orders), lists without repetition.

Where the code does not do what it seems meant to do, the code is modelled and the
exact condition, or an example, is proved:

* a JSON member name with a zero byte does not survive the styled writer
  (`StyledRoundTrip`, `NulNameIsLost`), and containers of enormous size are each less
  than the other exactly when their sizes are 2^31 apart modulo 2^32
  (`BothLessExactlyWhen`, `TransitiveExactlyWhen`);
* a round is calculated in one step and ended in another, and players may move in
  between: a give-up or stand-up there takes what is left of the bet a second time, and
  what is bet there and not taken along is lost. Coins are kept exactly when those who
  leave there have bets of just what is bet there (`KeptExactlyWhen`, `EndRound`,
  `PlayHand`, `MintingRound`, `LosingRound`);
* whether the game is over is asked only while a round is calculated, and the answer is
  no unless bets are awaited, so a hand that has begun goes from round to round and is
  never paid (`NeverPaid`); `OnCaculateGameResult` and `PlayHand` say what the payment
  does once it is called;
* side pools of a round need not be nested (`NestedExactlyWhenRestsAreSmall`,
  `NotAlwaysNested`, `RoundOfThree`);
* a listed player who has folded since can win a pool and is not paid: the shares are
  all paid exactly when every strongest listed player has stayed (`PaidExceptRemainder`,
  `FoldedHand`); a main pool that no one can act for is paid to nobody (`MainPoolPaid`,
  `EveryoneGivesUp`);
* a follow never adds coins, and an all-in does not raise the highest bet;
* a player whose halo is made of one-time weight alone is told yes once and no
  afterwards (`SecondAnswer`), which the exchange survives because it asks before it
  depends on the answer;
* a notice of delay never makes the queue wait longer, against its comment; it hastens
  the next sending exactly when the last one was less than thirty seconds ago or at most
  sixty ahead (`NoticeThenVisit`, `NoticeHastens`, `SentAgainAtOnce`);
* beyond a thousand waiting, a database request is dropped while the caller is told
  that it was accepted, and from 128 threads on the eight-bit count of task objects
  wraps, so that no request ever waits and the limit on task objects is gone
  (`PostDBRequest`, `EightBitCount`, `MoreThanTheLimit`);
* after 2^32 pushes a serial number can come round while its request still runs; that
  request is dropped without its callback, so that callbacks stay at most once
  (`Push`, `DropsExactlyWhen`, `SerialComesRound`);
* a splitter's character of five bytes needs a second byte of 0x88 or more whatever the
  first, so some that are not overlong are refused (`LongFormsExactlyWhen`);
* a halo of weight `w` takes effect on `w + 1` of the possible rolls (`YesUpToWeight`);
* with a signed `char`, which is what the servers' platforms have, the splitter
  accepts any byte from 0x80 up as a continuation (`SameCutExactlyWhen`,
  `SignedLetsMorePass`);
* a room type of nine or more makes the generation of room numbers endless
  (`SixDigits`), and 256 slots or more make a vain search through them endless
  (`AddServer`);
* mail ids of different servers meet after a 32-bit wrap, whatever maxima they have
  read, unless the number of servers divides 2^32 (`DisjointForEverExactlyWhen`).

Integers are unbounded; where the source's width matters it is written out: 64-bit
decoding, the 32-bit line length of the styled writer, 64-bit coins (a table's coins
fit twice over, so no sum wraps, not even where bets are taken twice), the 16-bit halo
sum, eight-bit counters, 32-bit serial numbers and ids. Bytes are characters below 256. Random numbers, clocks, replies and
what callbacks post are parameters.

`dafny verify dfyconfig.toml` checks the project.

## Model

| member | source | states |
|---|---|---|
| JsonOrder.StrictTotalOrder | Server/ServerCommon/jsoncpp.cpp:2991-3036 | on real-free values the order is irreflexive, transitive and asymmetric, and neither side is less exactly when `operator==` holds |
| JsonOrder.Trichotomy | Server/ServerCommon/jsoncpp.cpp:2991-3036 | exactly one of less, equal, greater, by induction through containers and their keys |
| JsonOrder.Transitive | Server/ServerCommon/jsoncpp.cpp:2991-3036 | less is transitive across types, sizes and container contents |
| JsonOrder.KeyTrichotomy | Server/ServerCommon/jsoncpp.cpp:2748-2772 | member names and array indexes are totally ordered, byte by byte and then by length |
| JsonOrder.EqualIsIdentity | Server/ServerCommon/jsoncpp.cpp:3044-3087 | `operator==` holds exactly between identical values |
| JsonOrder.BothLessExactlyWhen | Server/ServerCommon/jsoncpp.cpp:3025-3031 | containers of any size, their contents real-free: the size difference is cut down to an `int`, so both are less than each other exactly when the sizes are 2^31 apart modulo 2^32; otherwise exactly one of less, equal and greater holds |
| JsonOrder.TransitiveExactlyWhen | Server/ServerCommon/jsoncpp.cpp:3025-3031 | containers of any size, each less than the next: the first is less than the third exactly when the two 32-bit differences add up within an `int`, or come round to zero and the cells decide so |
| JsonOrder.BothLess | Server/ServerCommon/jsoncpp.cpp:3025-3031 | an array of 2^31 nulls and the empty array are each less than the other |
| JsonOrder.BytesLessExactlyWhen | Server/ServerCommon/jsoncpp.cpp:2748-2760 | text is less exactly when it has the smaller byte at the first difference, or is a proper beginning |
| JsonOrder.WhatIsLess | Server/ServerCommon/jsoncpp.cpp:2991-3036 | which values are less, by types, by the values of scalars and by the sizes of containers |
| JsonOrder.FirstCellDecides | Server/ServerCommon/jsoncpp.cpp:3025-3031 | of two containers of one size the first cell that differs decides, by its key and then by its value |
| JsonNumber.DecodeNumber | Server/ServerCommon/jsoncpp.cpp:784-824 | the loop gives an integer exactly when the optionally signed digits denote a number in [-2^63, 2^64-1], and it is that number; no intermediate value leaves 64 bits |
| JsonNumber.DecodeInvertsPrint | Server/ServerCommon/jsoncpp.cpp:4181-4203 | decoding a printed signed or unsigned 64-bit integer gives that integer, with the tag the decoder chooses |
| JsonNumber.Tens | Server/ServerCommon/jsoncpp.cpp:784-824 | digits denote their values and count in tens from the right |
| JsonNumber.UintToString | Server/ServerCommon/jsoncpp.cpp:167-173 | the digits are written backwards in front of the terminating zero and are the decimal digits of the number |
| JsonNumber.ValueToString | Server/ServerCommon/jsoncpp.cpp:4181-4203 | the text of any 64-bit integer, in a buffer that is never overrun |
| JsonText.ValueToQuotedString | Server/ServerCommon/jsoncpp.cpp:4336-4397 | the loop, with its shortcut for plain text, gives the escaped text in quotes |
| JsonText.DecodeString | Server/ServerCommon/jsoncpp.cpp:859-910 | the loop undoes escapes, surrogate pairs included, or fails where one is malformed |
| JsonEscapes.AllRead | Server/ServerCommon/jsoncpp.cpp:912-967 | any text of code points, each written as one or two `\u` escapes with digits of either case, is read as its UTF-8 bytes |
| JsonEscapes.ShortEscapes | Server/ServerCommon/jsoncpp.cpp:868-904 | what may follow a backslash and what it stands for; anything else is refused |
| JsonEscapes.TooFewDigits | Server/ServerCommon/jsoncpp.cpp:941-967 | fewer than four hexadecimal digits are refused |
| JsonEscapes.HalfPair | Server/ServerCommon/jsoncpp.cpp:919-938 | the first half of a surrogate pair is refused without a second escape |
| JsonEscapes.EncodingDenotes | Server/ServerCommon/jsoncpp.cpp:122-148 | a code point is written in the fewest bytes that hold it, and they denote it |
| JsonEscapes.WrittenClean | Server/ServerCommon/jsoncpp.cpp:4336-4397 | a written string has no control character |
| JsonEscapes.WrittenAsItIs | Server/ServerCommon/jsoncpp.cpp:4336-4397 | and text that needs no escape is written as it is |
| JsonLayout.QuotingUndone | Server/ServerCommon/jsoncpp.cpp:859-910 | decoding the escapes of any byte string gives the string back |
| JsonLayout.StringIsToken | Server/ServerCommon/jsoncpp.cpp:668-678 | a quoted string in front of anything is scanned as one string token, whatever it contains |
| JsonLayout.NumberIsToken | Server/ServerCommon/jsoncpp.cpp:646-666 | a printed integer in front of anything that cannot continue it is scanned as one number token |
| JsonLayout.LayoutRead | Server/ServerCommon/jsoncpp.cpp:384-463 | any spaced-out text of a value is read as that value and nothing more of the input, unless it nests beyond the limit, in which case the exception is thrown |
| JsonWriter.FastWriter.Write | Server/ServerCommon/jsoncpp.cpp:4416-4422 | the text is that of the fast layout of the value and a line feed |
| JsonWriter.FastWriter.WriteValue | Server/ServerCommon/jsoncpp.cpp:4424-4476 | appends exactly the fast text of the value to the document |
| JsonStyledWriter.StyledWriter.Write | Server/ServerCommon/jsoncpp.cpp:4484-4493 | the text is that of the styled layout, and the writer is left ready for the next value |
| JsonStyledWriter.StyledWriter.WriteValue | Server/ServerCommon/jsoncpp.cpp:4495-4552 | appends the styled text at the current indentation, or pushes it when child values are collected; indentation is restored |
| JsonStyledWriter.StyledWriter.WriteArrayValue | Server/ServerCommon/jsoncpp.cpp:4554-4595 | one line or several, from the collected child texts or written anew, gives the same layout |
| JsonStyledWriter.StyledWriter.IsMultilineArray | Server/ServerCommon/jsoncpp.cpp:4597-4622 | decides by child shapes and 32-bit line length, and leaves the child texts of a single-line array behind |
| JsonStyledWriter.StyledWriter.WriteIndent | Server/ServerCommon/jsoncpp.cpp:4631-4640 | a new line is begun unless the document already ends in one or in a blank |
| JsonFormat.FastIsCompact | Server/ServerCommon/jsoncpp.cpp:4424-4476 | the fast layout has no white space outside strings |
| JsonFormat.OneLineExactlyWhen | Server/ServerCommon/jsoncpp.cpp:4597-4622 | an array is written on one line exactly when no item is a filled container, there are fewer than 25 and the line is shorter than 74 characters |
| JsonFormat.Indented | Server/ServerCommon/jsoncpp.cpp:4524-4595 | every other item and every member has a line of its own, three spaces further in than its container, which is closed at its own indentation |
| JsonRoundTrip.FastRoundTrip | Server/ServerCommon/jsoncpp.cpp:4416-4476 | parsing fast output gives the value back, integers retagged; it throws exactly when the value nests more than 1000 deep |
| JsonRoundTrip.StyledRoundTrip | Server/ServerCommon/jsoncpp.cpp:4484-4652 | parsing styled output gives the value back exactly when it nests at most 1000 deep and no member name holds a zero byte |
| JsonRoundTrip.NulNameIsLost | Server/ServerCommon/jsoncpp.cpp:4534-4537 | an object whose one member name is a zero byte is not read back from styled output |
| JsonRoundTrip.FastReprint | Server/ServerCommon/jsoncpp.cpp:4424-4476 | the value read back prints as the same fast text |
| JsonRoundTrip.StyledReprint | Server/ServerCommon/jsoncpp.cpp:4495-4595 | the value read back prints as the same styled text |
| JsonReader.Reader.Parse | Server/ServerCommon/jsoncpp.cpp:343-382 | on every byte buffer the reader ends, with its cursor inside the buffer, and its status is that of the grammar |
| JsonReader.Reader.ReadAnyValue | Server/ServerCommon/jsoncpp.cpp:384-463 | one value: status and cursor agree with the grammar, the nesting count is restored |
| JsonReader.Reader.ReadNextToken | Server/ServerCommon/jsoncpp.cpp:475-544 | one token: kind, text and cursor agree with the scanner, and the cursor moves unless the input is at its end |
| JsonReader.Reader.ReadString | Server/ServerCommon/jsoncpp.cpp:668-678 | a string is scanned to its closing quote, escapes skipped, never past the end |
| JsonReader.Reader.ReadNumber | Server/ServerCommon/jsoncpp.cpp:646-666 | digits, fraction and exponent are scanned, never past the end |
| JsonReader.Reader.ReadComment | Server/ServerCommon/jsoncpp.cpp:567-588 | a comment of either style is skipped, or refused, never past the end |
| JsonReader.Reader.ReadObject | Server/ServerCommon/jsoncpp.cpp:680-734 | members are read up to the closing brace or the text is recovered from; an object that is read holds, in the order of the names, of each listed name just the last listing |
| JsonMembers.PutIs | Server/ServerCommon/jsoncpp.cpp:705-713 | a member put into an object in name order is there, no other with its name is, all others stay, and the names stay in order |
| JsonMembers.MembersHeld | Server/ServerCommon/jsoncpp.cpp:680-734 | whatever the text, the object read has a cell exactly for the last listing of each name, and its names ascend |
| JsonMembers.ObjectRead | Server/ServerCommon/jsoncpp.cpp:680-734 | the same for any spaced-out text of members in any order, with repetitions |
| JsonMembers.LookedUp | Server/ServerCommon/jsoncpp.cpp:680-734 | a name is in the object exactly when it is listed, and once |
| JsonMembers.MemberRead | Server/ServerCommon/jsoncpp.cpp:688-718 | a member that is read has a string as its name, then at once a colon, then a value |
| JsonMembers.MemberEnded | Server/ServerCommon/jsoncpp.cpp:719-733 | after a member there is the closing brace, a comma, or a comment |
| JsonAccepts.ValueAccepted | Server/ServerCommon/jsoncpp.cpp:384-463 | a value is read only from a token that denotes it, or after an opening brace or bracket, and within the depth limit |
| JsonAccepts.ItemAccepted | Server/ServerCommon/jsoncpp.cpp:736-772 | after an item there is a comma and another item, or the closing bracket |
| JsonAccepts.NumberTaken | Server/ServerCommon/jsoncpp.cpp:646-666 | digits, with or without a fraction and an exponent, are taken whole in front of anything that cannot continue them |
| JsonAccepts.OnlyNumbersTaken | Server/ServerCommon/jsoncpp.cpp:646-666 | and whatever is taken for a number has that form |
| JsonAccepts.NumberRead | Server/ServerCommon/jsoncpp.cpp:784-846 | a number is an integer if it is one of 64 bits, and otherwise a double just when `sscanf` takes it |
| JsonAccepts.CommentsSkipped | Server/ServerCommon/jsoncpp.cpp:567-644 | a comment of either style makes no difference where a value, a name or what follows an item is expected |
| JsonAccepts.RecoversAfter | Server/ServerCommon/jsoncpp.cpp:980-991 | recovery goes on just after the first token of the wanted kind or at the end |
| JsonReader.Reader.ReadArray | Server/ServerCommon/jsoncpp.cpp:736-772 | items until the closing bracket, errors recovered from |
| JsonReader.Reader.RecoverFromError | Server/ServerCommon/jsoncpp.cpp:980-991 | tokens are skipped to the wanted one or the end, and the loop ends |
| StdSort.Sort | Common/TaxasPokerPeerCard.cpp:10-20 | what `std::sort` promises under a key comparison: an ordered permutation |
| PokerRanking.Pigeonhole | Common/TaxasPokerPeerCard.cpp:424-504 | among at most seven cards, five of different ranks exclude four of a kind and a full house, which is why flush and straight may be looked for first |
| PokerRanking.Surplus | Common/TaxasPokerPeerCard.cpp:350-365 | what is held among the cards exceeds what is held among some of them by no more than the others are |
| PokerStraight.Collect | Common/TaxasPokerPeerCard.cpp:737-755 | one card of each of five ranks in a row, pairs skipped, all from the cards |
| PokerStraight.ScanRun | Common/TaxasPokerPeerCard.cpp:731-766 | the scan from the top finds the highest run of five, or there is none |
| PokerStraight.CheckShunZi | Common/TaxasPokerPeerCard.cpp:715-767 | the run returned has the highest top among the cards, ace high or, if there is none higher, ace low; none is returned exactly when there is none |
| PokerGroups.FindGroups | Common/TaxasPokerPeerCard.cpp:506-532 | every card ends in a whole group of its rank or, if its rank is held once, in the ordered rest; three groups are enough for seven cards |
| PokerHands.OrderGroups | Common/TaxasPokerPeerCard.cpp:533-547 | the exchanges order the groups by size and then by rank, and lose none |
| PokerHands.ClearNulls | Common/TaxasPokerPeerCard.cpp:573-584 | taken cards are erased and the others kept in order |
| PokerHands.FillUp | Common/TaxasPokerPeerCard.cpp:590-603 | the highest cards left fill the hand to five |
| PokerHands.GreedyKickers | Common/TaxasPokerPeerCard.cpp:659-700 | the kickers taken from the top are, one after the other, the best ranks not yet taken |
| PokerHands.KeyOfHand | Common/TaxasPokerPeerCard.cpp:568-700 | a five-card hand that holds the greedily chosen ranks has just these as its ranking key |
| PokerBest.GreedyDominates | Common/TaxasPokerPeerCard.cpp:568-700 | no other choice of different ranks held often enough is lexicographically better than the greedy one |
| PokerBest.GroupsBest | Common/TaxasPokerPeerCard.cpp:506-703 | with neither straight nor flush, five cards with a greedy key and nothing for a better pattern are at least as good as any five |
| PokerBest.StraightBest | Common/TaxasPokerPeerCard.cpp:482-504 | without five of a suit, five cards of the highest run are best |
| PokerBest.FlushBest | Common/TaxasPokerPeerCard.cpp:434-478 | the five highest of the long suit are best when no run lies in it |
| PokerBest.StraightFlushBest | Common/TaxasPokerPeerCard.cpp:455-478 | the highest run within the long suit is best |
| PokerEvaluator.FindFlush | Common/TaxasPokerPeerCard.cpp:424-480 | the first suit of five cards gives the best hand and its type; otherwise no suit has five |
| PokerEvaluator.FindStraight | Common/TaxasPokerPeerCard.cpp:482-504 | the best straight is the best hand when there is no flush; otherwise there is no straight |
| PokerEvaluator.Four | Common/TaxasPokerPeerCard.cpp:568-607 | four of a kind with the best kicker, another group put back among the kickers, is best |
| PokerEvaluator.ThreeOrFullHouse | Common/TaxasPokerPeerCard.cpp:608-639 | a full house, also of two triples, or a triple with two kickers is best, with its groups recorded |
| PokerEvaluator.Pairs | Common/TaxasPokerPeerCard.cpp:640-691 | one or two pairs with the best kickers, a third pair put back among them, are best |
| PokerEvaluator.PeerCard.CaculateFinalCard | Common/TaxasPokerPeerCard.cpp:350-703 | after any five to seven different cards the chosen five are at least as good as every five that can be drawn, with the matching type and group ranks; nothing changes when no card changed or fewer than five are there |
| PokerEvaluator.PeerCard.AddCard | Common/TaxasPokerPeerCard.cpp:33-57 | the card is added and the choice marked stale |
| PokerEvaluator.PeerCard.RemovePublicCard | Common/TaxasPokerPeerCard.cpp:59-79 | the first occurrence is taken out, or nothing changes |
| PokerEvaluator.SameScore | Common/TaxasPokerPeerCard.cpp:157-161 | the score of a hand does not depend on the order of its cards, so sorting it again is harmless |
| PokerCompare.AdjustPos | Common/TaxasPokerPeerCard.cpp:96-115 | a straight is put in comparing order, its low ace in front |
| PokerCompare.DecideCancels | Common/TaxasPokerPeerCard.cpp:162-190 | a card rank present in both hands cancels out of the comparison |
| PokerCompare.TopCompareDecides | Common/TaxasPokerPeerCard.cpp:164-190 | comparing two sorted hands card by card from the top is deciding by the highest rank held unequally often |
| PokerCompare.LeadThenSingles | Common/TaxasPokerPeerCard.cpp:157-190 | after equal groups, comparing whole hands equals comparing the kickers |
| PokerCompare.StraightsCompare | Common/TaxasPokerPeerCard.cpp:157-190 | straights in comparing order compare by their tops, the ace-low one last |
| PokerCompare.CompareIsOrder | Common/TaxasPokerPeerCard.cpp:117-197 | the comparison of scores is antisymmetric and transitive, and zero exactly between equal scores |
| PokerCompare.PK | Common/TaxasPokerPeerCard.cpp:117-197 | the result is the standard comparison of any best hands of the two players, whatever order the cards lie in, and both players keep their cards |
| PokerSorts.BetterSortWins | Common/TaxasPokerPeerCard.h:8-24 | five in a row of one suit beat everything; then four of a rank, three with a pair, one suit, five in a row, three of a rank, two pairs, one pair, told from ranks and suits alone |
| PokerSorts.HigherRowWins | Common/TaxasPokerPeerCard.cpp:117-200 | of two straights of one sort the higher wins, the ace before the two being the lowest |
| PokerSorts.KeysDecide | Common/TaxasPokerPeerCard.cpp:117-200 | other hands of one sort compare by their ranks, those held more often first and then the higher |
| PokerSorts.FirstDifference | Common/TaxasPokerPeerCard.cpp:117-200 | the first difference of such lists decides |
| PokerStrength.BestExists | Common/TaxasPokerPeerCard.cpp:350-703 | any five or more different cards have a best hand |
| PokerStrength.StrengthIsMost | Common/TaxasPokerPeerCard.cpp:350-703 | no five cards that can be drawn score higher than the strength |
| PokerStrength.ComparedStrengths | Common/TaxasPokerPeerCard.cpp:117-197 | what `PK` returns is the comparison of the two strengths |
| ThreeCards.RankingIsPreorder | Common/PeerCard.cpp:52-94 | the three-card comparison is antisymmetric, reflexive and transitive |
| ThreeCards.OrderDoesNotMatter | Common/PeerCard.cpp:131-186 | kind and comparison do not depend on the order of the cards |
| ThreeKinds.BetterKindWins | Common/PeerCard.cpp:52-64 | three of a rank beat everything; then three in a row of one suit, one suit, three in a row, a pair, told from ranks and suits alone |
| ThreeKinds.HigherPairWins | Common/PeerCard.cpp:66-76 | of two mere pairs the higher wins |
| ThreeKinds.HighestRankWins | Common/PeerCard.cpp:78-94 | otherwise the highest rank that differs decides, and equal ranks tie |
| ThreeCards.ThreeCardHand.Arrange | Common/PeerCard.cpp:131-186 | the exchanges sort the cards in place and the tests give the kind and pair rank defined by counts |
| ThreeCards.ThreeCardHand.PKPeerCard | Common/PeerCard.cpp:52-94 | the result is the ranking by kind, pair, and highest rank held more often |
| ThreeCards.ThreeCardHand.Replace | Common/PeerCard.cpp:96-112 | one card is replaced by another and the hand arranged again, or nothing happens |
| HaloDeal.Player.IsHaveHalo | Server/ServerCommon/ISitableRoomPlayer.cpp:38-63 | the answer and the remembered roll |
| HaloDeal.SecondAnswer | Server/ServerCommon/ISitableRoomPlayer.cpp:38-63 | asking again gives the same answer, exactly unless the halo is made of one-time weight alone and said yes |
| HaloDeal.YesUpToWeight | Server/ServerCommon/ISitableRoomPlayer.cpp:38-66 | an unrolled halo says yes for just the rolls up to its weight, so for one more of them than its weight, and never without weight |
| HaloDeal.HeavierNeverLoses | Server/ServerCommon/ISitableRoomPlayer.cpp:38-66 | a heavier halo never says no where a lighter one says yes |
| HaloDeal.Room.GiveBetterHand | Server/ServerCommon/ISitableRoom.cpp:598-617 | hands and places of two players are exchanged together, the search for the second going down |
| HaloDeal.Room.ExchangeHands | Server/ServerCommon/ISitableRoom.cpp:588-619 | the two-index loop parts the players by halo, every place keeping its hand |
| HaloDeal.Room.DoProcessNewPlayerHalo | Server/ServerCommon/ISitableRoom.cpp:563-627 | the list holds the acting players in the order of the hands at its places, these are the hands held before; whoever has a halo stands after whoever has none, so no one whose halo failed ends with a better hand than someone whose halo took effect |
| TexasPools.NestedExactlyWhen | Common/TaxasRoomData.cpp:371-401 | a bet pays into nested layers exactly when what it has above its level is less than every later step |
| TexasPools.LevelIsUsedUp | Common/TaxasRoomData.cpp:371-401 | a bet equal to a level is used up by the layers |
| TexasPools.StepsAre | Common/TaxasRoomData.cpp:371-401 | positive steps that reach given levels are determined by them, so the layers of a round are determined by its all-ins |
| TexasSeats.SecondLargestExactlyWhen | Common/TaxasRoomData.cpp:849-877 | the second largest stake: two different acting players can stake as much, if it is not zero, and no two can stake more |
| TexasSeats.SecondLargestIsUnique | Common/TaxasRoomData.cpp:849-877 | the second largest stake is one number |
| TexasRoom.Room.GetCanMaxBetCoinThisRound | Common/TaxasRoomData.cpp:849-877 | the loop finds the second largest stake of the acting players, equal stakes counted apart |
| TexasRoom.Room.OnPlayerAllIn | Common/TaxasRoomData.cpp:711-742 | success exactly in turn with something to bet; the bet becomes all the player has, but not more than the second largest stake unless as much was bet before; no coin is made or lost |
| TexasTable.BetOfAllIn | Common/TaxasRoomData.cpp:724-731 | so nobody bets more than another acting player can match, and nobody who is all in can act |
| TexasRoom.Room.OnPlayerGiveUp | Common/TaxasRoomData.cpp:693-709 | the bet moves to the main pool; no coin is made or lost, but for a part of the bet that lies there already |
| TexasRoom.Room.OnPlayerPass | Common/TaxasRoomData.cpp:670-691 | success exactly in turn with the bet matching the highest; only the action changes |
| TexasRoom.Room.OnPlayerFollow | Common/TaxasRoomData.cpp:593-622 | with 64-bit wrap-around it succeeds exactly when the bet already matches and a coin is left, and moves no coin |
| TexasRoom.Room.OnPlayerStandUp | Common/TaxasRoomData.cpp:324-339 | a bet in the hand stays in the main pool and the table loses just the leaver's own coins |
| TexasRoom.Room.OnEndThisRound | Common/TaxasRoomData.cpp:287-308 | bets, actions, turn and highest bet are cleared, nothing else |
| TexasRoom.Room.PeelLayer | Common/TaxasRoomData.cpp:390-400 | each player in the hand who can pays the same step into the pool, others nothing |
| TexasRoom.Room.BuildPools | Common/TaxasRoomData.cpp:371-401 | one pool for each new level of the all-in bets, the first taking the main pool, with every coin accounted for |
| TexasRoom.Room.OnCaculateRound | Common/TaxasRoomData.cpp:348-415 | bets become what the layers leave of them, pools list their payers, the rest goes to the main pool; coins, main pool and pools are what coins, bets and pools were |
| TexasRoom.Room.GotoCaculateRound | Server/DataServer/src/RoomTaxasNew.cpp:184-188 | the round is calculated: pools are built, and what is left of the bets lies in the main pool and stays written as bets too; no coin is made or lost yet; the new table is determined by the old one |
| TexasRoom.Room.LeaveCaculateRound | Server/DataServer/src/RoomTaxasNew.cpp:124-128 | the round is ended later: all bets are cleared, so what was bet since is lost |
| TexasRoom.Room.PlayBetween | Server/DataServer/src/RoomTaxasNew.cpp:273-357 | what players do in between: just the left bets of those who give up or stand up are taken a second time; late bets grow by just what all-ins bet there and shrink by just what leavers take to the main pool for the first time |
| TexasRoom.Room.EndRound | Server/DataServer/src/RoomTaxasNew.cpp:124-188 | a whole end of a round: with the coins of those who stood up and what is bet in between, coins and pools are what they were and the bets of those who leave in between; they are kept exactly when these bets are just what is bet there, and always when no bet is changed in between; how much is taken twice can be told from the bets, the all-ins and the moves alone |
| TexasTable.NothingTakenExactlyWhen | Server/DataServer/src/RoomTaxasNew.cpp:273-357 | nothing is taken twice exactly when no one leaves in between who has a bet left in the main pool |
| TexasRoom.Room.OnWaitNextPlayerAct | Common/TaxasRoomData.cpp:310-322 | the turn goes to the next player around the table who can act, in a new round after the big blind |
| TexasRoom.Room.Play | Server/DataServer/src/RoomTaxasNew.cpp:124-357 | any run of all-ins, give-ups, passes, follows, stand-ups, turns and the two steps of a round's end leaves just the table that the moves make one after the other, and takes away just the coins of those who stand up; coins are accounted for as in `RunKeeps`, and kept when nobody goes all in, gives up or stands up between the two steps; nobody gets back into the hand, cards stay, and pools list, in seat order, players who were in the hand |
| TexasTable.RunKeeps | Server/DataServer/src/RoomTaxasNew.cpp:124-357 | over any run, with the coins of those who stand up and the late bets cleared at the ends of rounds, coins, bets and pools are what they were and what is taken a second time; each amount is a sum over the moves |
| TexasTable.LayersKeep | Common/TaxasRoomData.cpp:371-412 | the layers of a round take from the bets just what they put into the pools |
| TexasTable.LateBets | Server/DataServer/src/RoomTaxasNew.cpp:124-357 | over any run, what is bet between the two steps of a round's end is taken along by leavers, cleared, or not cleared yet; no amount is negative |
| TexasTable.KeptExactlyWhen | Server/DataServer/src/RoomTaxasNew.cpp:124-357 | over whole rounds, but for what those who stand up take away, coins are kept exactly when the bets of those who leave between the two steps are just what is bet there |
| TexasTable.NothingExactlyWhen | Server/DataServer/src/RoomTaxasNew.cpp:124-357 | nothing is taken away exactly when no one stands up with coins; nothing is taken twice exactly when no leaver has a bet in the main pool; nothing is lost exactly when no round ends with late bets |
| TexasTable.QuietKeeps | Server/DataServer/src/RoomTaxasNew.cpp:124-357 | a run in which nobody goes all in, gives up or stands up between the two steps neither makes nor loses a coin |
| TexasTable.TakenBetween | Server/DataServer/src/RoomTaxasNew.cpp:273-357 | what moves in between take twice can be told beforehand from the left bets and the moves |
| TexasRoom.LevelsAreSteps | Common/TaxasRoomData.cpp:371-401 | the layers found by sorting the all-ins are those that the levels of their bets determine |
| TexasGame.GameRoom.CheckThisRoundEnd | Common/TaxasRoomData.cpp:237-273 | true exactly while bets are awaited and at most two players are in the hand, or everyone who can act has matched the highest bet and, unless alone, acted |
| TexasPlayed.RoundIsPlayed | Server/DataServer/src/RoomTaxasNew.cpp:47-380 | over any run of messages and of the clock: when a round is calculated with at least three in the hand and two who can act, each of these has made a successful move since bets and actions were last cleared, and their bets are equal |
| TexasPlayed.EventsInOrder | Server/DataServer/src/RoomTaxasNew.cpp:47-380 | rounds are calculated only when they are over, and ended only when they are calculated |
| TexasGame.GameRoom.CheckGameOver | Common/TaxasRoomData.cpp:490-507 | true exactly when the round is found to be over and it is the fourth or fewer than two players are in the hand; never while no bet is awaited |
| TexasGame.GameRoom.OnMessage | Server/DataServer/src/RoomTaxasNew.cpp:200-380 | a message is one move of the table, then the calculation of the round if it is over, or the next turn if it was that player's |
| TexasGame.GameRoom.Update | Server/DataServer/src/RoomTaxasNew.cpp:47-154 | the clock: a bet not made in time is a pass if it can be and a give-up otherwise; the stages follow each other as in the source |
| TexasGame.GameRoom.Play | Server/DataServer/src/RoomTaxasNew.cpp:47-380 | any run of messages and of the clock does what the events do one after the other |
| TexasGame.NeverPaid | Server/DataServer/src/RoomTaxasNew.cpp:124-138 | after any run of messages and of the clock, a hand that has begun has not come to the payment, and the table is where a run of its moves leads |
| TexasGame.GameKeepsCoins | Server/DataServer/src/RoomTaxasNew.cpp:47-380 | so the coins are accounted for over any run of messages and of the clock, and kept over whole rounds exactly when leavers take along just what is bet after a calculation |
| TexasRoom.AllInIsUsedUp | Common/TaxasRoomData.cpp:371-412 | whoever went all in this round has no bet left outside the pools |
| TexasRoom.NestedExactlyWhenRestsAreSmall | Common/TaxasRoomData.cpp:371-401 | the pools of a round have nested lists exactly when no bet in the hand leaves, above its level, enough for a later step |
| TexasRoom.NestedWhenOthersCallOrFold | Common/TaxasRoomData.cpp:371-401 | in particular when every other live bet is zero or at least the largest all-in |
| TexasRoom.NotAlwaysNested | Common/TaxasRoomData.cpp:371-401 | all-ins of 10 and 12 and a live bet of 5: the layers of this round are 10 and 2, the live bet is left out of the first pool and pays into the second |
| TexasRoom.RoundOfThree | Common/TaxasRoomData.cpp:348-415 | the round calculated for these three bets leaves two pools that are not nested |
| TexasPayout.CaculateVicePoolWinnerIdxs | Common/TaxasRoomData.cpp:890-937 | the winners are exactly the listed, seated players with a strongest hand, each once; only these need cards |
| TexasPayout.NextCompared | Common/TaxasRoomData.cpp:908-935 | one more player, weaker, as strong or stronger, leaves the list of winners right |
| TexasPayout.GetTaxasCardForPlayer | Common/TaxasRoomData.cpp:939-951 | the player's two cards and the five on the board |
| TexasPayout.OnCaculateGameResult | Common/TaxasRoomData.cpp:417-488 | each pool, the main pool among them, has its winners; each seat wins its floored shares, and players still in the hand get them as coins; players not listed, such as those waiting for the next game, need no cards |
| TexasPayout.SomeoneWins | Common/TaxasRoomData.cpp:890-937 | a pool has no winner exactly when nobody it lists is seated any more |
| TexasPayout.PaidExceptRemainder | Common/TaxasRoomData.cpp:446-486 | with a coin for each winner, every share is paid exactly when every strongest listed player is still in the hand, and the rest is then less than the number of winners; a pool nobody wins, or with fewer coins than winners, is not paid at all |
| TexasPayout.MainPoolPaid | Common/TaxasRoomData.cpp:419-435 | of the main pool less than one coin per winner is left, unless no one can act any more: then nobody gets it |
| TexasPayout.GainsAreReceived | Common/TaxasRoomData.cpp:431-486 | what all seats gain is what the winners receive, never more than the pools hold |
| TexasPayout.PayoutAdds | Common/TaxasRoomData.cpp:472-487 | the seats' coins grow by just what the winners receive |
| TexasHand.PlayHand | Server/DataServer/src/RoomTaxasNew.cpp:124-202 | a whole hand: the pools and seats are those the moves make up to the end of the last round, paid; the coins at the seats, those taken away, those bet too late and what is left of the pools are the coins at the start and those taken twice; they are the coins at the start exactly when leavers between the two steps of a round's end take along just what is bet there; each pool is won by its strongest listed players, and one whose strongest players stayed leaves less than a coin per winner |
| TexasHand.RestsAdd | Common/TaxasRoomData.cpp:431-486 | what winners receive and what is left are what the pools held |
| TexasBetween.MintingRound | Common/TaxasRoomData.cpp:404-412 | three bets of 10 at 300 coins: a give-up between the two steps makes 310 of them |
| TexasBetween.LosingRound | Common/TaxasRoomData.cpp:287-308 | the same table: an all-in between the two steps leaves 210 coins |
| TexasUnpaid.FoldedWinnerIsNotPaid | Common/TaxasRoomData.cpp:472-487 | a player with a royal flush who has folded is a winner of the pool, and at least a third of it goes to nobody |
| TexasUnpaid.FoldedHand | Common/TaxasRoomData.cpp:287-488 | a hand that comes to this: an all-in, the end of the round, the give-up and the payment |
| TexasUnpaid.EveryoneGivesUp | Common/TaxasRoomData.cpp:417-488 | three players bet, the round ends, all give up: the main pool of 30 coins is paid to nobody |
| TaskPool.StepKeepsInv | Server/ServerCommon/TaskPool.cpp:29-136 | every step of a poster, a worker or the updater keeps the invariant |
| TaskPool.EveryRun | Server/ServerCommon/TaskPool.cpp:29-136 | in every interleaving: a posted task is in exactly one place, performed once before delivery and never twice; a worker is idle or busy and not both; a worker given a task has none |
| TaskProgress.RetiresFromEmptyQueue | Server/ServerCommon/TaskPool.cpp:104-116 | a worker comes to retire only from a look that found no task waiting |
| TaskProgress.WaitsWithoutIdleWorker | Server/ServerCommon/TaskPool.cpp:39-53 | a task waits only if its poster found no idle worker; otherwise the one that became idle last is to have it |
| TaskProgress.FirstComeFirstServed | Server/ServerCommon/TaskPool.cpp:55-57 | in every interleaving the tasks that entered the queue are those taken, in that order and each by a worker, and those still waiting |
| TaskProgress.QueueStep | Server/ServerCommon/TaskPool.cpp:102-112 | in each step tasks enter the queue at its end and leave it at its front, into a worker's hands |
| TaskProgress.ResultStep | Server/ServerCommon/TaskPool.cpp:60-76 | results come back in the order the workers finished |
| TaskProgress.WorkersEmptyQueueExactlyWhen | Server/ServerCommon/WorkThread.cpp:38-72 | the workers alone can empty the queue exactly when it is empty or some worker has a task or is about to look |
| TaskProgress.WaitingTasksGetDone | Server/ServerCommon/WorkThread.cpp:38-72 | from every reachable state with such a worker there are steps of workers alone after which nothing waits and every task that waited has been performed once |
| TaskPool.AssignKeeps | Server/ServerCommon/WorkThread.cpp:13-29 | handing a task to a worker loses none, because the worker has none |
| TaskPool.LoopKeeps | Server/ServerCommon/WorkThread.cpp:36-71 | waking, looking, clearing, taking over and signalling keep the worker's task |
| TaskPool.RetiringIsBusy | Server/ServerCommon/TaskPool.cpp:116-135 | a worker that retires is always found among the busy ones |
| TaskPool.TaskMayWaitBesideIdleWorker | Server/ServerCommon/TaskPool.cpp:36-53 | what is not promised: a poster that saw no idle worker may queue its task after the last worker went idle |
| DbDispatcher.Dispatcher.GetReuseTask | Server/ServerCommon/TaskPool.cpp:78-93 | a free task object, or a new one, and none exactly when none is free and all were created |
| DbDispatcher.Dispatcher.PostDBRequest | Server/ServerCommon/DBRWModule.cpp:16-45 | a request is attached, waits, or is dropped without notice beyond a thousand waiting; a request waits only when no task object is free and all were created |
| DbDispatcher.Dispatcher.OnTaskFinish | Server/ServerCommon/DBRWModule.cpp:81-122 | with callbacks that post more, each posted request is accepted unless a thousand wait, a waiting request gets the task object the callback left, and no accepted request is lost or doubled |
| DbDispatcher.Dispatcher.EightBitCount | Server/ServerCommon/DBRWModule.cpp:67-79 | below 128 threads there are at most twice their number and one task objects; from 128 on no request ever waits and none is refused |
| DbDispatcher.MoreThanTheLimit | Server/ServerCommon/DBRWModule.cpp:67-79 | from 128 threads on, more requests than twice their number and one are in the pool at once |
| DbDispatcher.Dispatcher.Update | Server/ServerCommon/TaskPool.cpp:56-76 | each delivered task's request is answered once, in order, after the answers there were; accepted requests stay accepted, and only those posted by callbacks are added; afterwards again nothing waits while a task object is free |
| AsyncQueue.Queue.Push | Server/ServerCommon/AsyncRequestQuene.cpp:125-152 | a running request with the same id and type is returned instead; otherwise the next serial number is taken and the request sent for the first time |
| AsyncQueue.Queue.OnMsg | Server/ServerCommon/AsyncRequestQuene.cpp:36-105 | a reply to a request not running changes nothing, a notice of delay puts the last sending 90 seconds back and sends nothing, any other ends that request alone; what is sent is just what the callback pushes; no callback is called twice |
| AsyncQueue.Queue.Cancel | Server/ServerCommon/AsyncRequestQuene.cpp:165-176 | the request stops running and its object joins the reserve, which shares none with the running ones |
| AsyncQueue.Queue.TakeObject | Server/ServerCommon/AsyncRequestQuene.cpp:210-223 | the object taken is in use nowhere else |
| AsyncQueue.Queue.Visit | Server/ServerCommon/AsyncRequestQuene.cpp:233-263 | a request is given up after six sendings, sent again after thirty seconds, and otherwise left alone |
| AsyncQueue.Queue.OnTimer | Server/ServerCommon/AsyncRequestQuene.cpp:225-273 | just the requests that were sent six times end, and the others are passed over, sent again if thirty seconds have gone by; each callback the timer calls was not called before and its request was sent six times; what was sent stays sent, and no request is ever sent more often |
| AsyncQueue.Queue.NoticeThenVisit | Server/ServerCommon/AsyncRequestQuene.cpp:58-65 | after a notice of delay the timer sends the request again exactly when it was sent at most five times, the last time at most 60 seconds ahead of now, instead of 30 behind |
| AsyncQueue.NoticeHastens | Server/ServerCommon/AsyncRequestQuene.cpp:58-65 | a notice of delay never postpones a sending, and hastens it exactly when the last one was less than 30 seconds ago or at most 60 ahead |
| AsyncExamples.SentAgainAtOnce | Server/ServerCommon/AsyncRequestQuene.cpp:58-65 | a request sent just now, a notice of delay, and the timer: it is sent a second time at the same moment |
| AsyncExamples.SentOnce | Server/ServerCommon/AsyncRequestQuene.cpp:225-273 | the same without the notice: it was sent once |
| AsyncQueue.DropsExactlyWhen | Server/ServerCommon/AsyncRequestQuene.cpp:136-147 | a push drops a running request exactly when that one has the serial number taken |
| AsyncExamples.SerialComesRound | Server/ServerCommon/AsyncRequestQuene.cpp:136-147 | while one request stays unanswered 2^32 - 1 others come and go; the next takes its serial number, and it runs no more without its callback having been called |
| ClubRooms.Club.UpdateCreateRoom | Server/DataServer/src/Club.cpp:1118-1164 | a creation of this club is pushed exactly when none is pending, fewer than two rooms are empty and nothing else holds it up |
| ClubRooms.ClubManager.OnReply | Server/DataServer/src/Club.cpp:1138-1163 | a reply adds a room only to the club whose creation was pending; late and repeated replies add none; for every club, empty rooms and the pending creation stay at most two |
| ClubRooms.ClubManager.OnTimer | Server/DataServer/src/Club.cpp:1138-1142 | creations of any clubs given up in one walk of the timer end without a room |
| ClubRooms.ClubManager.PushOthers | Server/DataServer/src/Club.cpp:1137-1138 | requests of other modules in the shared queue leave every club as it is |
| ClubRooms.ClubManager.AddClub | Server/DataServer/src/ClubManager.cpp:227-249 | a club read from the database in mid-run joins with no room and no creation pending |
| ClubRooms.ClubManager.EmptyAndPendingAreFew | Server/DataServer/src/Club.cpp:1118-1196 | empty rooms and creations outstanding in the queue are at most two together, for every club |
| ClubRooms.ClubManager.Run | Server/DataServer/src/Club.cpp:1118-1196 | after any run of updates, replies, timer walks, pushes of others, new clubs and news of rooms, no club has more than two empty rooms and outstanding creations together |
| ClubRooms.CalledIsPending | Server/DataServer/src/Club.cpp:1138-1150 | a callback of the club's that is called is that of the one pending creation |
| ClubRooms.Club.OnRoomOver | Server/DataServer/src/Club.cpp:878-900 | the room leaves the list it is in, full rooms first |
| ClubRooms.Club.OnRoomStart | Server/DataServer/src/Club.cpp:908-921 | a starting room moves from the empty to the full ones |
| Utf8Split.Parse | Common/Utility.cpp:75-181 | the loop cuts the string as the case distinction on the leading byte says, or stops at the first place without a character |
| Utf8Split.CharacterExactlyWhen | Common/Utility.cpp:75-137 | of up to four bytes there is a character exactly when the leading byte announces them, the others continue it, and no fewer bytes would do |
| Utf8Split.LongFormsExactlyWhen | Common/Utility.cpp:138-174 | the obsolete forms of five and six bytes; of five, some that are not overlong are refused as well |
| Utf8Split.PiecesAreTheString | Common/Utility.cpp:75-181 | the pieces of an accepted string are the string; those of a refused one are a proper beginning |
| Utf8Split.EncodedIsOneCharacter | Server/ServerCommon/jsoncpp.cpp:122-148 | the encoding of any code point is one character to the splitter, whatever follows |
| Utf8Split.EncodedIsCutBack | Common/Utility.cpp:75-181 | any concatenation of encoded code points is accepted and cut into one piece for each |
| Utf8Split.BeyondIsNothing | Server/ServerCommon/jsoncpp.cpp:122-148 | a number beyond the last code point is written as nothing, so no piece stands for it |
| Utf8Split.SignednessMatters | Common/Utility.cpp:75-181 | a signed and an unsigned `char` see different characters in front exactly when the signed test sees one that has, after its first byte, one of 0xC0 or more; the unsigned one then sees none |
| Utf8Split.SameCutExactlyWhen | Common/Utility.cpp:75-181 | a string is cut alike with both exactly when no piece of the signed cut has, after its first byte, one of 0xC0 or more |
| Utf8Split.SignedLetsMorePass | Common/Utility.cpp:97-101 | with a signed `char` a leading byte passes where a continuation byte should be |
| Utf8Split.CheckStringForSql | Common/Utility.cpp:183-208 | an accepted string comes out with exactly its quote bytes doubled, a refused one as the guest name |
| Utf8Split.DoublingIsInjective | Common/Utility.cpp:198-207 | different accepted strings stay different |
| RoomDirectory.Directory.AddRoomItem | Server/DataServer/src/GameRoomCenter.cpp:292-344 | the table gains the room and both indexes agree with it; a known number changes nothing; the number is no longer reserved |
| RoomDirectory.Directory.DeleteRoomItem | Server/DataServer/src/GameRoomCenter.cpp:346-394 | the table loses the room and both indexes agree with it; its chat room is kept |
| RoomDirectory.Directory.ListedExactlyWhen | Server/DataServer/src/GameRoomCenter.cpp:292-344 | a room is listed under its creator, and under its club if it has one, under nobody else and never twice |
| RoomDirectory.Directory.FitsExactlyWhen | Server/DataServer/src/GameRoomCenter.cpp:460-490 | a drawn number is taken exactly when it has at most six digits and is neither live nor reserved |
| RoomDirectory.AddToOwner | Server/DataServer/src/GameRoomCenter.cpp:396-421 | the owner, new or not, has the room once and at the end of the list, the other rooms in their order, none twice; no other owner changes |
| RoomDirectory.AddedAgrees | Server/DataServer/src/GameRoomCenter.cpp:292-344 | an index that gains a new room under its owner agrees with the table that gains it |
| RoomDirectory.DeleteFromOwner | Server/DataServer/src/GameRoomCenter.cpp:423-450 | the owner's list loses the room, and an empty list its owner |
| RoomDirectory.Directory.GenerateRoomID | Server/DataServer/src/GameRoomCenter.cpp:460-490 | the number given out is the first drawn that has six digits and is neither live nor reserved, and it tells the type |
| RoomDirectory.TypeIsRecovered | Server/DataServer/src/GameRoomCenter.cpp:452-458 | the type is recovered from any number generated with it |
| RoomDirectory.NumbersDiffer | Server/DataServer/src/GameRoomCenter.cpp:470-475 | different types and different draws give different numbers |
| RoomDirectory.SixDigits | Server/DataServer/src/GameRoomCenter.cpp:469-487 | a type of nine or more has no number of six digits, so the search would not end |
| ServerSlots.ServerGroup.AddServer | Server/CenterServer/src/SeverInfo.cpp:74-107 | a new server gets the first free slot, a returning one its old slot if free, and the index of its slot; other slots keep theirs; with 256 slots or more a vain search does not end |
| ServerSlots.ServerGroup.RemoveServer | Server/CenterServer/src/SeverInfo.cpp:109-122 | just the slot of the connection is freed |
| ServerSlots.ServerGroup.GetNetworkIDByTargetID | Server/CenterServer/src/SeverInfo.cpp:136-151 | the connection of the one server whose index is the target modulo the number of slots, or the invalid one if no server has that index |
| MailIds.MailModule.OnStoredMax | Server/DataServer/src/MailModule.cpp:23-47 | without 32-bit wrap the start is above the stored maximum: the server's own id in the block of ids after the one that holds it; a timeout changes nothing |
| MailIds.MailModule.Generate | Server/DataServer/src/MailModule.cpp:50-54 | the ids generated one after the other |
| MailIds.StartIsNextBlock | Server/DataServer/src/MailModule.cpp:39-42 | the start lies above the stored maximum, in the next block, and has the server's index as remainder |
| MailIds.StreamsAreDisjoint | Server/DataServer/src/MailModule.cpp:39-54 | as long as no id wraps, servers with different indexes generate no id in common, whatever maximum each has read |
| MailIds.IdsGrow | Server/DataServer/src/MailModule.cpp:50-54 | one server's ids grow and lie above the stored maximum |
| MailIds.GrowsUnlessItWraps | Server/DataServer/src/MailModule.cpp:50-54 | the next id is larger exactly when adding the step does not wrap |
| MailIds.DisjointForEverExactlyWhen | Server/DataServer/src/MailModule.cpp:39-54 | with 32-bit wrap, and whatever maximum each server has read, no id is ever common to two servers exactly when their number divides 2^32 |
| MailIds.StreamsMeetAfterWrap | Server/DataServer/src/MailModule.cpp:50-54 | three servers: after a wrap the first one's ids run into the third one's |

## Left out

- JSON reals: a number that is no 64-bit integer is kept as its text, and whether `sscanf` accepts it is a parameter.
- JSON comments: they are skipped as the reader skips them, but not attached to values; the writers' comment output is not part of this model.
- JsonReader.Reader.Parse: the reader returns the value instead of filling it in through the node stack, so the partial value left behind by a failed parse is not modelled, nor are offsets, error messages and the unread `isDouble` text.
- JSON arrays with gaps: they occur in the order theorem, not in the round trips, which need dense arrays.
- The second half of a surrogate pair is not checked by the reader and not in the model either; the encoded code point is the one the code computes.
- `OurReader`, stream writers, `Path`, locale fixes, and the `std::string` overload of `parse`.
- `CardPoker.h`, which declares the cards, is not part of this model's sources: a card is a suit and a face from 1 to 13, its ace counted as 14 where the evaluator asks for that.
- PokerCompare.PK: both players hold at least five cards; with fewer the type fields are stale.
- Hole cards, card names, robot card types and the reuse of card objects in the evaluator.
- HaloDeal.Room.DoProcessNewPlayerHalo: hands are three-card hands; the other games' hands are compared through the same interface but not modelled.
- PokerEvaluator.PeerCard.AddCard: at most seven cards, all different, as the table deals them; the source does not check.
- TexasRoom.Room.OnCaculateRound: the comparator of the all-in sort answers true for equal bets too, which `std::sort` does not allow; the sort is taken to order by bet.
- ServerSlots.ServerGroup.AddServer: the server's connection differs from all others, as the network layer numbers them; the source does not check.
- TexasRoom.Room.Play: players who sit down while a hand is played; they wait for the next one and bring coins of their own. A table has fewer than 128 seats, so that eight-bit seat numbers do not wrap.
- TexasGame.GameRoom.Play: it begins when a hand is dealt; the start of a hand, the numbers of seconds a stage takes, and messages that nobody at the table sends. The payment's own stage is never reached.
- Kicking a player, which empties the seat at once whatever the player has bet, and the kicks that are put off until a give-up.
- What happens between the payment and the start of the next hand; bets are zero then.
- Raising a bet (`OnPlayerAdd`), whose guard compares opposite to its comment; blinds and card dealing; the commission, which the code sets to zero.
- TexasPayout.OnCaculateGameResult: shares are integer divisions; the source divides floating-point numbers and truncates. Whoever sits at a seat that a pool lists has cards: a newcomer who takes such a seat in mid-hand holds card number zero, which is no card.
- Seats are values in a list that is reassigned, so two pointers to one seat record are not modelled; a seat's own number is its position.
- TaskPool.EveryRun: safety only. A task may stay in the queue beside an idle worker, so no promptness is claimed; closing the pool is not modelled.
- Reads and writes of one field are single steps; the order in which the memory of two processors becomes visible is not modelled.
- DbDispatcher.Dispatcher.Update: the database result object, which a re-posted task shares with its callback, is not modelled.
- AsyncQueue.Queue.OnTimer: requests pushed by callbacks during the walk are not visited in it; the source may visit them, without effect, since they were just sent.
- AsyncQueue.Queue.OnMsg: callbacks that cancel their own request, and callbacks that raise exceptions.
- ClubRooms.ClubManager.OnReply: the callback is run after the queue has ended the request instead of just before; what it pushes is passed in with the reply.
- Club membership, permissions, events, the value of a club's options, and the dissolving of a club.
- RoomDirectory.Directory.GenerateRoomID: the random numbers are a list; where none of them fits, the source would go on drawing.
- Database statements, push notifications, logging, sockets, configuration, and the other games.
- MailIds.MailModule.OnStoredMax: debug builds, which set the start to zero.
