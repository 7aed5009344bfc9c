# Verified model of the bango server SDK

bango is an SDK for servers of an online role-playing game: a spatial index, a network layer with its
packet format, a reader for s-expression configuration files, a game server and a database server. This
project models the parts of it that keep state, in Dafny 4.11, and proves what they keep.

`dafny verify dfyconfig.toml` checks all of it.

- **Space.** `Geometry`, `Trees` and `Collapse` describe the quadtree as a value: routing through squares
  that share their edges, the canonical shape, the pruning query, the collapse after a removal. `Placing` says
  when an insertion finds a child for every entity. `Containers` and `QuadTree` are the same on the heap, and
  `QuadRuns` covers whole runs. `MapWidth` says which positions a map of the game server can always store.
  `Sight` is the protocol that tells clients who appears, disappears and moves, `WorldMap` the map that speaks
  it on top of the tree, and `MapRun` covers whole runs of it.
- **Language.** `Lexer` is the grammar of tokens, `Automaton` the scanner's states, `Reader` the meaning and
  the printer. `Layout` says how files can be written and that they are read as what they mean. `Chains` are
  lists as heap cells, and `Parser` is the parser object with its two readers.
- **Wire and sessions.** `Framing` cuts packets from a stream, `Packet` is the sliding packet buffer,
  `Sessions` the login between game server and database server.
- **Ledgers.** `Party`, `Inventory`, `Progress`, `Monster` and `Spawn` are the bookkeeping of the game server.
  `Kill` is where parties and the ledgers of monsters meet.

Every handler is one step; locks and threads are not modelled. Network writes are left out where nothing
depends on them, and returned as events or messages where something does. Randomness, clocks and the answers
of the database are parameters.

## What the proofs found

- Routing every position needs a width that is a power of two. `MAP_WIDTH` (apps/gameserver/include/World.h:17)
  is 25 times one. The results about trees and maps hold on it as long as no split loses an entity
  (`Placing.FindsIffPlaces`, `QuadRuns.InsertionGoesThroughIff`). `MapWidths.MapRoutesIff` lists the positions
  that no split loses, and `MapWidths.TargetsRouteIff` finds two of the eight places that commands teleport to
  among them; the other six are stored as long as the squares around them are not subdivided too far.
- The collapse needs distinct positions. With repeated ones a removal can ask an inner square for a container
  it does not have. The comment in the code says that a brother need not be a leaf; its container is taken
  nevertheless (`QuadRuns.StuckRemoval`).
- `WorldMap::Add` reports a character before it stores it. If it is out of bounds, clients keep someone who
  is not there (`MapRuns.RefusalMisleads`), until it is removed (`Sight.RemovalUndoesRefusal`). A player that
  is refused has been shown whoever is near, and is not told otherwise when it is removed. A walk out of the
  map leaves views wrong, too (`Sight.WalkedOutIsExactIff`).
- Loot that a player walks up to is not announced; nothing else leaves loot unshown (`Sight.StepShowsLootIff`).
  When that player walks away, or the loot is picked up, its client is told of the end of something it was
  never shown (`MapRuns.SpuriousEnd`); nothing else is ever spurious (`Sight.RunsAreExact`).
- A doubled quote in a string is not left behind when it is read, so it is read again. Strings that end in
  quotes read back, strings with quotes elsewhere do not (`Reader.QuotableIff`, `Reader.QuoteInsideIsLost`).
- The printer shortens lists after six elements, and the reader rejects the dots (`Reader.LongListsAreCut`).
  Printed in full, lists of any length and depth read back (`Reader.FullPrintingReadsBackIff`).
- The parser keeps its depth from one list to the next. After the recursive reader has closed too much, a
  list that ends with as many others open trips an assertion (`Parsers.FromBelowIff`).
- `packet::reset_size` copies the type after it has written the length. Pops of one or two bytes lose the
  type, and nothing else does (`Packets.TypeSurvivesIff`).
- A malformed length empties the client's buffer, so what follows it depends on how the reads fell
  (`Framing.ChunkingDoesNotMatterIff`). A length over 32768 is not refused, and the packet is copied beyond its
  array (`Framing.OverrunIff`).
- An account granted to a session that has left stays active for good (`Sessions.LostForever`,
  `Sessions.LeavingEarlyLoses`). The database forgets all accounts when the link to any one game server closes
  (`Sessions.ForgettingIsHarmlessIff`).
- A ban between the last two members leaves an empty party on the register (`Parties.BanOfTwoLeaks`). Party
  ids start at zero (apps/gameserver/src/Party.cpp:20-21), and a kill takes members of the first party for
  players without one (`Kills.TakenForAloneIff`, `Kills.FirstPartyIsPaid`).
- A monster's total hostility has no initial value (apps/gameserver/include/Monster.h:48), and whatever it
  starts from is part of the divisor at the first death, and only there (`Monsters.TotalsAreRightIff`,
  `Monsters.LeftoversSpoilShares`).

## Model

| member | source | states |
|---|---|---|
| Geometry.Isqrt | core/space/include/bango/space/quadtree.h:44 | the integer root: its square does not exceed the number, the next square does |
| Geometry.DistanceIsRounded | core/space/include/bango/space/quadtree.h:44 | the square of the distance does not exceed the sum of the two squared offsets, and the next square does |
| Geometry.WithinRadiusIff | core/space/include/bango/space/quadtree.h:44 | so a point is within a radius exactly when its squared offsets add up to less than the square of the radius plus one |
| Geometry.DistanceBoundsOffsets | core/space/include/bango/space/quadtree.h:44 | a distance of at most the radius bounds both coordinate offsets by the radius |
| Geometry.DistanceSymmetric | core/space/include/bango/space/quadtree.h:46 | distance does not depend on which of the two entities is asked |
| Geometry.InReachIff | core/space/include/bango/space/quadtree.h:171-181 | a region passes the square test exactly when it has a point whose two offsets are at most the radius |
| Geometry.PruningIsSafe | core/space/include/bango/space/quadtree.h:171-181 | a point within the radius never lies in a region that the square test prunes |
| Geometry.InnerByCoordinates | core/space/include/bango/space/quadtree.h:183-197 | which quarter a position is routed to, by coordinates: upper and left quarters own the lines between, and in a square of odd width the last row and column belong to none |
| Geometry.PowerOfTwoDescends | core/space/include/bango/space/quadtree.h:188-197 | in a square whose width is a power of two, first-match routing finds a child for every point at every depth |
| Geometry.OtherWidthLosesPoint | core/space/include/bango/space/quadtree.h:226-251 | in a square of any other width there is a point that some subdivision leaves without a child |
| Geometry.RoutingIsTotalIff | core/space/include/bango/space/quadtree.h:188-251 | routing reaches a child for every point at every depth exactly when the width is a power of two |
| Geometry.PowerOfTwoRoutes | core/space/include/bango/space/quadtree.h:188-197 | so on such a width every position within the square can be stored however far it is subdivided and whatever else it holds |
| Geometry.MapWidthLosesPoint | apps/gameserver/include/World.h:17 | the width the game server passes is no power of two, so such a point exists on its maps |
| MapWidths.DescendsByCoordinate | core/space/include/bango/space/quadtree.h:188-197 | whether a point finds a child at every depth depends on its column and on its row, each by itself |
| MapWidths.MapRoutesIff | apps/gameserver/include/World.h:17 | which positions a map of the game server can store whatever else is on it: of every 25 rows the last is lost at some depth, and of every 25 columns nine are |
| MapWidths.TargetsRouteIff | apps/gameserver/src/main.cpp:162-192 | of the eight places that commands teleport to, only the first and the last are such positions |
| Trees.SizeCounts | core/space/include/bango/space/quadtree.h:133-139 | the recursive size is the number of entities stored |
| Trees.DistinctCounts | core/space/include/bango/space/quadtree.h:142-148 | the recursive distinct size is the number of different positions, although neighbouring squares share their edges |
| Trees.ChildrenPartition | core/space/include/bango/space/quadtree.h:188-197 | the contents of an inner square are split among its children by first-match routing, each entity in one child |
| Trees.BuildIsTight | core/space/include/bango/space/quadtree.h:200-264 | splitting exactly the squares with too many positions gives, where it finds a child for every entity, a tree with the maximum in no leaf exceeded and in every inner square exceeded |
| Trees.TightIsPlaced | core/space/include/bango/space/quadtree.h:200-264 | and wherever there is such a tree, building it found every child |
| Trees.TightIsBuild | core/space/include/bango/space/quadtree.h:200-264 | a tree with that property is determined by its square and its contents |
| Trees.TightIffCanonical | core/space/include/bango/space/quadtree.h:200-323 | a well-formed tree is tight exactly when it is the canonical tree of its contents |
| Trees.TightIsBounded | core/space/include/bango/space/quadtree.h:285-298 | in a tight tree, every leaf that can be subdivided is within the maximum |
| Placing.SettlesIffPlaces | core/space/include/bango/space/quadtree.h:211-263 | with distinct positions the order in which a leaf is filled does not matter: what is stored in every order is what building places |
| Placing.EarnedFinds | core/space/include/bango/space/quadtree.h:200-264 | with repeated positions, in a tree that was filled in some order: an entity that is stored in every order finds a child at every step |
| Placing.FindsIffPlaces | core/space/include/bango/space/quadtree.h:200-264 | with distinct positions an insertion finds a child at every step exactly when building the larger tree does |
| Placing.HoldsFinds | core/space/include/bango/space/quadtree.h:188-264 | where every position can be routed at every depth, every insertion finds a child at every step |
| Trees.QueryIsDisjoint | core/space/include/bango/space/quadtree.h:325-341 | no entity is handed to the callback twice |
| Trees.QueryVisitsLeavesInReach | core/space/include/bango/space/quadtree.h:325-341 | the query visits the containers of exactly the leaves in reach, in order: pruning inner squares loses none, and none out of reach is visited |
| Trees.QueryMissesNobody | core/space/include/bango/space/quadtree.h:325-341 | whatever lies within the radius is in some container that the query visits |
| Trees.QueryIsExact | core/space/include/bango/space/quadtree.h:325-341 | the query followed by the distance filter is a full scan, each entity once, for every tree, point and radius |
| Collapse.RemoveContents | core/space/include/bango/space/quadtree.h:266-323 | a removal that goes through takes out that entity and nothing else |
| Collapse.MergeParentIff | core/space/include/bango/space/quadtree.h:281-322 | the parent is asked to merge exactly when the square was a leaf or is left with at most the maximum of positions, and then it is a leaf |
| Collapse.RemovalGoesThroughIff | core/space/include/bango/space/quadtree.h:266-323 | a removal takes a container from every child it merges exactly when, on the way down to the entity, every square with a subdivided branch to the side keeps more positions than the maximum |
| Collapse.TightIsCollapsible | core/space/include/bango/space/quadtree.h:285-312 | in a tight tree that is always so |
| Collapse.RemoveKeepsTight | core/space/include/bango/space/quadtree.h:266-323 | removal keeps a tree tight, when live positions are distinct |
| Collapse.RemoveKeepsBounded | core/space/include/bango/space/quadtree.h:266-323 | removal keeps every leaf within the maximum, also with repeated positions, when it goes through |
| Collapse.RemoveFromCanonical | core/space/include/bango/space/quadtree.h:266-323 | removal takes the canonical tree of a set of entities to the canonical tree of the set without the entity |
| Collapse.ClimbingIsReturning | core/space/include/bango/space/quadtree.h:281-322 | climbing the parent pointers from a leaf gives the same tree as merging on the way back from the recursion |
| Collapse.CascadeRefinesRemove | core/space/include/bango/space/quadtree.h:266-323 | hence the cascade over parent pointers refines the recursive removal |
| Containers.CountsAfterInsert | core/space/include/bango/space/quadtree.h:71-75 | counting a position up keeps one counter for each occupied position with its number of entities |
| Containers.CountsAfterRemove | core/space/include/bango/space/quadtree.h:76-84 | counting down, and erasing a counter that reaches zero, keeps that too |
| Containers.Container.Insert | apps/gameserver/src/World.cpp:26-30 | the container holds one entity more, and its counters stay exact |
| Containers.Container.Remove | apps/gameserver/src/World.cpp:32-36 | the container holds one entity less, and its counters stay exact; at a position without a counter it throws and nothing changes |
| Containers.Container.Merge | apps/gameserver/src/World.cpp:38-42 | the container takes over all entities of another one and counts their positions |
| Containers.Container.Size | apps/gameserver/src/World.cpp:44-50 | the number of entities in the container |
| Containers.Container.DistinctSize | core/space/include/bango/space/quadtree.h:93 | the number of counters is the number of different positions |
| QuadTree.Quad.Insert | core/space/include/bango/space/quadtree.h:200-264 | if the steps down to the entity's leaf, and of those passed on when a full leaf is split, find a child: the entity is stored, squares split as the maximum asks and the shape is kept; outside the boundary it is refused and nothing changes |
| QuadTree.Quad.Subdivide | core/space/include/bango/space/quadtree.h:225-263 | a full leaf becomes an inner square whose children hold the old entities and the new one |
| QuadTree.Quad.MakeChildren | core/space/include/bango/space/quadtree.h:227-251 | four empty leaves over the four quarters |
| QuadTree.Quad.Remove | core/space/include/bango/space/quadtree.h:266-283 | the heap tree becomes what the recursive removal makes of it, and says whether the parent has to merge; where nobody stands at the position it throws and nothing changes |
| QuadTree.Quad.Merge | core/space/include/bango/space/quadtree.h:285-323 | a square with few enough positions takes over the contents of its four leaves, otherwise nothing changes |
| QuadTree.Quad.Query | core/space/include/bango/space/quadtree.h:325-341 | the containers visited are those of the abstract query, in that order |
| QuadTree.Quad.Size | core/space/include/bango/space/quadtree.h:133-139 | the size of the abstract tree |
| QuadTree.Quad.DistinctSize | core/space/include/bango/space/quadtree.h:142-148 | the distinct size of the abstract tree |
| QuadTree.Quad.Inner | core/space/include/bango/space/quadtree.h:188-197 | the child that first-match routing picks |
| QuadTree.SubdivisionTakes | core/space/include/bango/space/quadtree.h:225-263 | passing on the entities of a full leaf one by one makes a tree that takes the new entity |
| QuadRuns.PutOnCanonical | core/space/include/bango/space/quadtree.h:200-264 | inserting takes the canonical tree of a set to the canonical tree of the larger set |
| QuadRuns.InsertionGoesThroughIff | core/space/include/bango/space/quadtree.h:200-264 | with distinct positions, there is a way to insert an entity exactly when building can place it next to the others |
| QuadRuns.BuildGrows | core/space/include/bango/space/quadtree.h:211-263 | the canonical tree with one entity more is what splitting full leaves makes of the canonical tree |
| QuadRuns.TakeFromCanonical | core/space/include/bango/space/quadtree.h:266-323 | removing takes it to that of the smaller set |
| QuadRuns.Replay | core/space/include/bango/space/quadtree.h:200-323 | on a square of any width, after any run of removes and of inserts at free positions that building can place next to what is live, the heap tree is the canonical tree of what is live, and both sizes are right |
| QuadRuns.LiveIff | core/space/include/bango/space/quadtree.h:200-323 | what is live is what some operation inserted and no later one removed |
| QuadRuns.Load | core/space/include/bango/space/quadtree.h:200-264 | on a square of any width, after any run of inserts alone, with repeated positions and any maximum, of entities that are stored in every order: contents, sizes and the bound on leaves are right |
| QuadRuns.RepeatedPositionBlocksRemoval | core/space/include/bango/space/quadtree.h:211-218 | with two entities at one position, and a maximum of one, a removal meets a sibling that is not a leaf |
| QuadRuns.StuckRemoval | core/space/include/bango/space/quadtree.h:211-218 | three insertions into a new tree after which the removal of the third entity would follow a null pointer |
| Sight.DeliverOnce | apps/gameserver/src/World.cpp:67-252 | what one client knows after a handler can be read off the set of events it was sent |
| Sight.ProperOnceIff | apps/gameserver/src/World.cpp:67-252 | events about different pairs do not get in each other's way: a client is told nothing spurious one after the other exactly when each event alone is not |
| Sight.AddTellsIff | apps/gameserver/src/World.cpp:67-110 | which callbacks an addition makes, by kinds and distances: players within sight are told of it, as a spawn if it is a monster, and a player is told of everyone within sight, each with its place |
| Sight.RemoveTellsIff | apps/gameserver/src/World.cpp:138-147 | which callbacks a removal makes: the players within sight are told of its end |
| Sight.MoveTellsIff | apps/gameserver/src/World.cpp:166-245 | which callbacks a move makes: who was and is no longer within sight loses and is lost, a player that keeps the walker within sight is told of the step, who comes within sight is told and shown, but for loot |
| Sight.MovedIff | apps/gameserver/src/World.cpp:217-218 | a player is told of a step exactly when it is within sight of both ends of it, and of exactly that step |
| Sight.StepIsFollowed | apps/gameserver/src/World.cpp:166-245 | so among the events of a move, each player that keeps the walker within sight is told of the step once, and nobody else is |
| Sight.AddKeepsExact | apps/gameserver/src/World.cpp:67-120 | an added character is announced to and for everyone in sight, once and at its place, and views stay exact |
| Sight.RemoveKeepsExact | apps/gameserver/src/World.cpp:122-148 | a removed character disappears from exactly the views that had it; clients are told nothing spurious exactly when the loot that goes had been shown to every player near it |
| Sight.RemoveIsProperIff | apps/gameserver/src/World.cpp:138-147 | a removal announces the end of a character that some client was never shown exactly when it is loot that a player near it was never shown |
| Sight.DeathKeepsExact | apps/gameserver/src/World.cpp:133-136 | a monster removed by its death stays in views, where its id is retired |
| Sight.MoveKeepsExact | apps/gameserver/src/World.cpp:150-252 | after a move every view holds exactly what is in sight, each at its place, and no loot that is out of sight; clients are told nothing spurious exactly when a player that moves had been shown the loot it leaves behind |
| Sight.MoveIsProperIff | apps/gameserver/src/World.cpp:171-209 | a move announces the end of a character that the client was never shown exactly when it is loot that the moving player was never shown |
| Sight.MoveShowsLootIff | apps/gameserver/src/World.cpp:150-252 | if every player had been shown all loot in sight, that is so after a move exactly when its player did not walk up to loot that was out of sight |
| Sight.StepShowsLootIff | apps/gameserver/src/World.cpp:67-252 | of everything that can happen to a map, only such a walk leaves loot unshown |
| Sight.RunsShowLoot | apps/gameserver/src/World.cpp:67-252 | over any run without such a walk, every player has been shown all loot in its sight, and no client was told anything spurious |
| Sight.RefusalIsHarmlessIff | apps/gameserver/src/World.cpp:112-117 | an addition that the tree refuses has been announced already; that is harmless, to the players near and to the client of a player that is refused, exactly when no player was in sight and, if it is a player, nobody was |
| Sight.RemovalUndoesRefusal | apps/gameserver/src/World.cpp:122-148 | removing a character that had been refused takes back what its addition had told the players near it; the client of a player that was refused keeps what it was told |
| Sight.WalkedOutIsExactIff | apps/gameserver/src/World.cpp:166-251 | a walk that ends outside of the map leaves views exact exactly when it is no player that walks and no player is in sight of where it ends |
| Sight.RunsAreExact | apps/gameserver/src/World.cpp:67-252 | over any run of additions, removals, deaths, moves and teleports, each player's view is the other live characters in sight, each at its place, and loot in view is in range; a step tells something spurious exactly when it tells of the end of loot that was never shown |
| WorldMaps.OnceAcross | apps/gameserver/src/World.cpp:72-110 | reporting on disjoint containers one after the other reports on every pair once |
| WorldMaps.MoveReports | apps/gameserver/src/World.cpp:171-245 | the two queries of a move together report exactly the expected events |
| WorldMaps.WorldMap.Add | apps/gameserver/src/World.cpp:67-120 | the callbacks are exactly the expected events; the character is stored and registered unless it is out of bounds; with distinct positions a tight tree stays tight |
| WorldMaps.WorldMap.Remove | apps/gameserver/src/World.cpp:122-148 | the character is no longer stored nor registered, and the callbacks are the expected events, or none on a death; where the tree throws nothing changes and nobody is told; characters outside of the map, also those that were refused, are treated as the code treats them |
| WorldMaps.WorldMap.Move | apps/gameserver/src/World.cpp:150-252 | the callbacks are the expected events, and the character is stored at its new place unless that is outside of the map; the register keeps whom it had, and one that was refused before is stored without it; where the tree throws nothing changes |
| WorldMaps.WorldMap.Teleport | apps/gameserver/include/World.h:391-405 | a removal and an addition of the same character at another place of the map; with distinct positions a tight tree stays tight |
| WorldMaps.TeleportAcross | apps/gameserver/include/World.h:391-405 | the same from one map to another: the one forgets the character, the other stores it, and each tells the players near it |
| WorldMaps.WorldMap.ForEachAround | apps/gameserver/src/World.cpp:302-336 | the characters of the wanted kinds whose squared offsets add up to less than the square of the radius plus one, each once; loot is never visited |
| MapRuns.Perform | apps/gameserver/src/World.cpp:67-252 | one operation on a map, whatever positions are shared, is one step of the protocol, with the events that the map returned, as long as the tree can give up and place the character |
| MapRuns.SpreadIsPossible | apps/gameserver/src/World.cpp:67-252 | on the canonical tree of characters at distinct positions the tree can give up any of them, and place it wherever building can |
| MapRuns.Replay | apps/gameserver/src/World.cpp:67-252 | a map that carries out any run of joining, leaving, dying, walking and teleporting at free positions: what its handlers returned, put together, shows each client exactly who is within its sight and where, every step of a walker is told once to exactly the players that keep it within sight, an event was spurious exactly where loot went that had not been shown, and the tree is the canonical one |
| MapRuns.RefusalMisleads | apps/gameserver/src/World.cpp:112-117 | a run on a map of width 8 after which a refused addition leaves a client with someone who is not there: the client of the player inside, or that of the player refused |
| MapRuns.SpuriousEnd | apps/gameserver/src/World.cpp:171-209 | a run on a map of width 8: a player walks up to loot and back, and is told of the end of what it was never shown |
| Lexer.RunIsLongest | core/processor/src/parser.cpp:221-243 | a run ends at one place only: where the first character of another kind stands |
| Lexer.Lex | core/processor/src/parser.cpp:95-407 | a token ends within the text, every token but the end mark takes up characters, and the end mark stands at the end or at a NUL |
| Lexer.TokensEnd | core/processor/src/parser.cpp:95-407 | up to a NUL every token is what it would be if the text ended there |
| Automaton.AutomatonFollowsGrammar | core/processor/src/parser.cpp:221-406 | from every state of the scanner, what it accepts and where it stops is what the grammar of longest runs says |
| Automaton.ScanningIsBare | core/processor/src/parser.cpp:185-220 | and so from the first character of a word or number |
| Automaton.CollectingIsQuotation | core/processor/src/parser.cpp:133-184 | looking one character ahead for a doubled quote makes a string end with its first run of quotes, all but the last of which belong to it |
| Automaton.TokenIsOnOneLine | core/processor/src/parser.cpp:118-120 | line ends occur only in what is skipped, so counting them there counts all |
| Lexer.LinesAreCounted | core/processor/src/parser.cpp:118-120 | the count is the number of LF characters passed |
| Reader.ValueOfDecimal | core/processor/include/bango/processor/parser.h:45 | the digits printed for a number stand for that number |
| Reader.IntegerTextMeansItself | core/processor/src/lisp.cpp:39-44 | every 32-bit integer is read back from its printed text |
| Reader.NumberReads | core/processor/src/parser.cpp:189-338 | a printed integer before a blank, a parenthesis or the end is one token |
| Reader.FloatReads | core/processor/src/parser.cpp:189-381 | a number printed with two places before a blank, a parenthesis or the end is one token with that text |
| Reader.TextReads | core/processor/src/parser.cpp:133-158 | a text between quotes of either kind is one token with that text, or another text or none, as it can be quoted or not |
| Reader.QuotableIff | core/processor/src/parser.cpp:133-184 | a text can be quoted exactly when the quote occurs only at its end and it has no NUL, CR or LF |
| Reader.NulEndsText | core/processor/src/parser.cpp:103-105 | what stands behind a NUL is not read |
| Reader.ShowReads | core/processor/src/parser.cpp:46-93 | a readable tree is read back and reading goes on behind it; anything else is read as something else |
| Reader.ReadableItemsIff | core/processor/src/lisp.cpp:66-75 | which lists the printer does not cut: each element is below level six in it, where the next element is one level deeper, and it can be printed one level deeper itself if it is the last, and five otherwise |
| Reader.PrintingReadsBackIff | core/processor/src/lisp.cpp:34-75 | what the printer makes of a tree of lists, integers, strings and numbers with two places comes back exactly when its strings can be quoted and printing does not cut it short |
| Reader.FullPrintingReadsBackIff | core/processor/src/parser.cpp:46-407 | a tree of any length and depth, with atoms printed as the code does and lists in full, comes back exactly when its strings can be quoted |
| Reader.FullReads | core/processor/src/parser.cpp:46-407 | so it does inside of any text, and reading goes on behind it; a tree with another string is read as something else |
| Reader.LongListsAreCut | core/processor/src/lisp.cpp:66-75 | no list of more than six elements comes back |
| Reader.QuoteInsideIsLost | core/processor/src/parser.cpp:133-158 | the text a"b, printed, is read as a string that ends at the quote |
| Layouts.WordReads | core/processor/src/parser.cpp:189-243 | a letter, `*`, `/` or `_` followed by letters, digits and `+ - * / . _`, or a sign alone, before a blank, a comment, a parenthesis or the end is one string token with exactly that text |
| Layouts.IntegerReads | core/processor/src/parser.cpp:189-338 | an integer with or without a sign, decimal, octal behind 0 or hexadecimal behind 0x, is one integer token |
| Layouts.FloatingReads | core/processor/src/parser.cpp:298-406 | digits with a point, an exponent or both are one floating point token with that text |
| Layouts.IntegerMeans | core/processor/include/bango/processor/parser.h:45 | an integer means what its digits say in the base of its prefix, kept to 32 bits |
| Layouts.ValueOfNumeral | core/processor/include/bango/processor/parser.h:45 | the digits of a number in any base up to sixteen have that number as their value |
| Layouts.CapitalsCount | core/processor/include/bango/processor/parser.h:45 | and capital hexadecimal digits count like small ones |
| Layouts.NarrowKeeps | core/processor/include/bango/processor/parser.h:45 | numbers of 32 bits are kept, others modulo 2^32, up to where a long of 64 bits ends |
| Layouts.GapReads | core/processor/src/parser.cpp:100-120 | any mix of blanks, tabs, CR, LF and comments is skipped |
| Layouts.StrayCharacterFails | core/processor/src/parser.cpp:185-220 | a character that begins nothing is refused |
| Layouts.RunningOnFails | core/processor/src/parser.cpp:262-338 | a number that runs into a letter, or an octal one into an eight or a nine, is refused |
| Layouts.PointAloneFails | core/processor/src/parser.cpp:340-348 | a point without a digit behind it is refused |
| Layouts.UnclosedFails | core/processor/src/parser.cpp:133-184 | a quoted text that its line or the file ends is refused |
| Layouts.TokensAreSpelled | core/processor/src/parser.cpp:189-406 | and every token without quotes, anywhere in any text, is a word, an integer or a floating point number spelled in one of those ways |
| Layouts.FileReadsBackIff | core/processor/src/parser.cpp:46-407 | a file of any words, quoted texts, numbers in any notation and nested lists, with any blanks and comments between them, is read as the trees it means exactly when in its quoted texts there is no NUL, CR or LF and quotes stand at the end only |
| Chains.NReverse | core/processor/src/lisp.cpp:190-214 | the same cells in reverse order, with the terminator kept, changing second fields only |
| Chains.TurnedIsReversed | core/processor/src/lisp.cpp:199-213 | a chain whose cells point backwards is the reversed chain |
| Chains.Append | core/processor/src/parser.cpp:63-64 | a new cell behind the last one lengthens the list by one element |
| Chains.OpenList | core/processor/src/parser.cpp:450-456 | the current list is set aside under a new cell |
| Chains.CloseList | core/processor/src/parser.cpp:428-440 | the finished list, reversed, becomes an element of the one around it, in the cell that had kept the place |
| Parsers.OpenUnwinds | core/processor/src/parser.cpp:450-456 | setting a list aside does not change what the recursive reader would return |
| Parsers.CloseUnwinds | core/processor/src/parser.cpp:428-440 | nor does closing one |
| Parsers.Parser.SkipBlanks | core/processor/src/parser.cpp:100-120 | blanks and comments are passed and their line ends counted |
| Parsers.Parser.ReadBare | core/processor/src/parser.cpp:185-406 | the loop through the states takes the word or number of the grammar |
| Parsers.Parser.ReadQuoted | core/processor/src/parser.cpp:133-184 | the loop over a string collects the text of the grammar |
| Parsers.Parser.GetToken | core/processor/src/parser.cpp:95-407 | the next token of the grammar, the lines passed, and the balance of parentheses |
| Parsers.Parser.OnLoad | core/processor/src/parser.cpp:46-93 | the list on the heap is what the recursive reader means, or the error value; depth and line have gone on by the parentheses and line ends of the tokens it took |
| Parsers.Parser.ParseList | core/processor/src/parser.cpp:409-490 | from any depth: the error value exactly when the code gives it, the failed assertion exactly when lists are open at the end that an earlier text had closed, and otherwise the same list as the recursive reader; depth and line have gone on by what was taken, but a depth that would sink below zero is set to zero |
| Parsers.FromGroundIff | core/processor/src/parser.cpp:409-490 | from depth zero that is: the error value exactly for a wrong token or unbalanced parentheses, and no assertion fails; the sound texts are those that end with every parenthesis closed |
| Parsers.FromAboveIff | core/processor/src/parser.cpp:418-448 | from any greater depth it reads exactly the texts in which, with nothing wrong before, a parenthesis closes nothing, and no assertion fails |
| Parsers.FromBelowIff | core/processor/src/parser.cpp:409-448 | from a depth below zero it reads nothing, and the assertion that no list is open fails for exactly the texts that, with nothing wrong, end with as many lists open as the depth is below zero |
| Framing.Client.OnNewMessage | core/network/src/client.cpp:13-55 | a read executes the packets that can be cut from the buffer and keeps the rest; at a packet longer than the array it is copied to the model stops |
| Framing.Receive | core/network/src/client.cpp:13-55 | a client that receives one read after the other ends as the run model says |
| Framing.DrainGoesOn | core/network/src/client.cpp:23-48 | cutting what was kept together with later bytes continues the stream |
| Framing.JamSwallows | core/network/src/client.cpp:35-41 | behind a malformed length everything received so far is dropped |
| Framing.ChunkingDoesNotMatterIff | core/network/src/client.cpp:13-55 | packets, rest and overruns do not depend on how a stream is cut into reads exactly when no malformed length is met or nothing follows its header |
| Framing.StreamIsExecuted | core/network/src/client.cpp:13-55 | every cut of well-formed packets and the beginning of another executes those packets in order and keeps the beginning |
| Framing.OverrunIff | core/network/include/bango/network/packet.h:51-54 | every packet executed is well-formed, and a client copies beyond its array exactly when a complete packet of more than 32768 bytes comes next |
| Packets.Packet.constructor | core/network/include/bango/network/packet.h:36-48 | an empty packet of a type |
| Packets.Packet.FromBytes | core/network/include/bango/network/packet.h:51-56 | a packet of received bytes has their type and payload |
| Packets.Packet.ResetSize | core/network/include/bango/network/packet.h:25-32 | the header moves before the first byte left, and the type is what the order of the writes makes of it |
| Packets.Packet.Push | core/network/include/bango/network/packet.h:145-158 | the payload is what it was with the bytes behind it, or as it was when there is no room; the type stays |
| Packets.Packet.Pop | core/network/include/bango/network/packet.h:160-177 | the payload was the bytes popped and what is left; when there are too few, zeros are popped and nothing changes |
| Packets.Packet.PushStr | core/network/src/packet.cpp:5-16 | the string up to its first NUL, and a NUL, are behind the payload, or it throws and nothing changes |
| Packets.Packet.PopStr | core/network/src/packet.cpp:18-31 | the payload was the text, which has no NUL, a NUL and what is left, or it throws when it has none |
| Packets.Packet.Merge | core/network/src/packet.cpp:33-42 | the payload is what it was with the payload of the other packet behind it, and the type stays; or it throws for want of room and nothing changes |
| Packets.StepIsQueue | core/network/include/bango/network/packet.h:145-177 | each operation takes from the front and adds at the end, and keeps the type unless it takes one byte or two |
| Packets.RunIsQueue | core/network/include/bango/network/packet.h:145-177 | over any run what was there and what was added comes out in that order, and nothing is lost between |
| Packets.TypeSurvivesIff | core/network/include/bango/network/packet.h:25-32 | a run keeps the type of every packet exactly when no operation takes one byte or two |
| Packets.ShortPopLosesType | core/network/include/bango/network/packet.h:27-31 | one byte pushed and popped turns any type into zero |
| Packets.PushedComesBack | core/network/include/bango/network/packet.h:145-177 | pushed bytes are popped once everything before them is gone, whatever was pushed after them |
| Packets.StringsComeBack | core/network/src/packet.cpp:5-31 | a pushed string is popped, up to its first NUL, once everything before it is gone |
| Packets.FieldsComeBack | core/network/include/bango/network/packet.h:145-177 | in any run that pushes fields one by one or merges packets of fields, and pops each field the way it was pushed, as long as there is room, every pop returns the next field whole, strings up to their first NUL |
| Packets.BytesAreEncoded | core/network/include/bango/network/packet.h:105-109 | what is sent is the length, low byte first, the type and the payload |
| Packets.SentPacketsArrive | core/network/src/client.cpp:13-55 | whatever packets are sent and however the reads fall, they arrive in order with their types and payloads |
| Sessions.DatabaseManager.Login | apps/dbserver/src/DatabaseManager.cpp:106-152 | an unknown name, a wrong password and an active account are refused; otherwise the account becomes active and is granted |
| Sessions.DatabaseManager.FlagDisconnected | apps/dbserver/include/DatabaseManager.h:41 | the account is no longer active |
| Sessions.DatabaseManager.OnLinkClosed | apps/dbserver/src/DatabaseManager.cpp:76-79 | no account is active any more |
| Sessions.GameServer.OnConnected | apps/gameserver/src/Player.cpp:33-36 | a new session with the next number of its server may ask to log in |
| Sessions.GameServer.OnLogin | apps/gameserver/src/User.cpp:21-26 | a session that may ask sends its login and may not ask again; any other is ignored |
| Sessions.GameServer.OnAuthorized | apps/gameserver/src/DBListener.cpp:25-37 | the session with that id, if there is one, gets the role and the account |
| Sessions.GameServer.OnDisconnected | apps/gameserver/src/Player.cpp:38-50 | the session is gone, and an authorized one gives up its account |
| Sessions.StagesKept | apps/gameserver/src/User.cpp:21-26 | every session goes through the stages of its login once and one at a time |
| Sessions.ClaimsKept | apps/dbserver/src/DatabaseManager.cpp:142-152 | the claims on an account exclude each other and keep it active |
| Sessions.AccountsAreExclusive | apps/dbserver/src/DatabaseManager.cpp:106-152 | in every interleaving, on any number of game servers with their links up, two live sessions never share an account |
| Sessions.LoginGoesThrough | apps/dbserver/src/DatabaseManager.cpp:106-152 | a login to an account that nobody uses goes through once its messages arrive, and leaves none behind |
| Sessions.GoodbyeFrees | apps/gameserver/src/Player.cpp:38-50 | once the goodbye of an authorized session arrives its account is free again |
| Sessions.LostIff | apps/gameserver/src/DBListener.cpp:30-36 | an account becomes active without anyone having it exactly when it is granted to a session that has left, or the session leaves before the grant arrives |
| Sessions.LeavingEarlyLoses | apps/gameserver/src/Player.cpp:38-50 | a run from the start of four events that loses an account: its owner leaves while the login is on its way |
| Sessions.LostForever | apps/dbserver/src/DatabaseManager.cpp:142-147 | such an account stays so, and every later login to it is refused |
| Sessions.ForgettingIsHarmlessIff | apps/dbserver/src/DatabaseManager.cpp:76-79 | that the database forgets all accounts when the link of one game server closes is harmless exactly when nobody on any server has, awaits or gives up an account, except by what was on its way over that link |
| Parties.Party.UpdateTopLevel | apps/gameserver/src/Party.cpp:164-170 | the top level becomes the highest level among the members |
| Parties.Party.AddMember | apps/gameserver/src/Party.cpp:56-82 | a ninth member is refused, others join at the end of the list |
| Parties.Party.RemoveMember | apps/gameserver/src/Party.cpp:84-117 | throws for a stranger; otherwise the others keep their order, and the top level is sought anew when its holder left more than one behind |
| Parties.WithoutKeepsOrder | apps/gameserver/src/Party.cpp:92 | a member who leaves does not disturb the order of the others |
| Parties.TopSurvives | apps/gameserver/src/Party.cpp:90-116 | the top level stays the maximum although it is seldom recomputed |
| Parties.World.LeaveParty | apps/gameserver/src/Player.cpp:989-1007 | the player's pointer is cleared and it is taken off its party's list, in order; a party of two is closed for both and taken off the register; no other pointer or list changes |
| Parties.World.BanFromParty | apps/gameserver/src/Player.cpp:1015-1038 | a leader bans a member of its own party, whose pointer and place on the list go; a party of two is closed but stays registered; in every other case no pointer and no list changes |
| Parties.World.OnAskPartyAnswer | apps/gameserver/src/Player.cpp:793-835 | a player in no party who is near and agrees to its inviter is put at the end of the list of the party that the inviter leads, if it has fewer than eight, or is second in a new party behind an inviter without one, and the pointers of both are those of that party; in every other case no pointer, list or registration changes |
| Parties.World.OnAskParty | apps/gameserver/src/Player.cpp:762-791 | the invitation is noted exactly when the two are near, the inviter has no party or leads it, and the invited is in the game and has none |
| Parties.World.OnDisconnected | apps/gameserver/src/Player.cpp:38-46 | a player leaves its party and then the world |
| Parties.World.IdIsZeroIff | apps/gameserver/src/Party.cpp:20-21 | the party id of a player is zero exactly when it is in no party or in the first that was founded |
| Parties.AcceptedMeans | apps/gameserver/src/Player.cpp:793-835 | what an acceptance does to all pointers, lists and registrations in the run model |
| Parties.LeftIsSane | apps/gameserver/src/Player.cpp:989-1007 | leaving keeps pointers, lists, sizes, top level, order and register consistent |
| Parties.BannedIsSane | apps/gameserver/src/Player.cpp:1015-1038 | so does a ban |
| Parties.JoinedIsSane | apps/gameserver/src/Party.cpp:56-82 | so does joining |
| Parties.FoundedIsSane | apps/gameserver/src/Party.cpp:18-26 | so does founding |
| Parties.PartiesAgree | apps/gameserver/src/Player.cpp:793-1038 | after any run of answers, departures and bans, a player's party is the one whose list has it, lists have no duplicates and proper sizes, parties in use are registered, the top level is the maximum and the leader joined first |
| Parties.LeakIff | apps/gameserver/src/Player.cpp:1032-1036 | an empty party stays registered exactly after a ban between the last two members |
| Parties.BanOfTwoLeaks | apps/gameserver/src/Player.cpp:1015-1038 | a run from the start of two events that leaves an empty party on the register |
| Inventories.WearId | apps/shared/inix/attributes.h:250-283 | a two-handed sword goes into the weapon slot, and only shields go into the shield slot |
| Inventories.SlotsAreThose | apps/shared/inix/attributes.h:250-283 | the slot of every kind; no two kinds share one but the weapons |
| Inventories.PuttingOffUndoes | apps/gameserver/src/Inventory.cpp:228-306 | putting off what was put on restores everything |
| Inventories.SumAfterPutOn | apps/gameserver/src/Inventory.cpp:335-363 | putting on adds the bonuses of the item to the sums over the slots |
| Inventories.SumAfterPutOff | apps/gameserver/src/Inventory.cpp:365-393 | putting off takes them away |
| Inventories.WordSums | apps/gameserver/src/Inventory.cpp:335-393 | sums of sixteen bits can be kept up by adding and subtracting, also when they wrap |
| Inventories.VisibleAfterPutOn | apps/gameserver/src/Inventory.cpp:244-269 | what can be put on was not visible, and becomes so |
| Inventories.VisibleAfterPutOff | apps/gameserver/src/Inventory.cpp:291-302 | what is put off is visible no more, and all else still is |
| Inventories.FreeCell | apps/gameserver/src/Inventory.cpp:114-124 | there is always a free cell, as there are fewer slots and mounts than cells |
| Inventories.Inventory.AddVisibleIndex | apps/gameserver/src/Inventory.cpp:114-124 | the first free cell takes the index; without one nothing changes |
| Inventories.Inventory.RemoveVisibleIndex | apps/gameserver/src/Inventory.cpp:126-133 | that index is shown no more, the others still are |
| Inventories.Inventory.ApplySpecialty | apps/gameserver/src/Inventory.cpp:335-363 | each of the twenty sums grows by the item's bonus of the same name modulo 2^16, a weapon sets the attack speed |
| Inventories.Inventory.FreeSpecialty | apps/gameserver/src/Inventory.cpp:365-393 | each of the twenty sums shrinks by the item's bonus of the same name modulo 2^16, a weapon resets the attack speed |
| Inventories.NamesAreAll | apps/gameserver/src/Inventory.cpp:335-363 | the twenty bonuses are all there is: two sums that agree on each are the same |
| Inventories.Inventory.PutOn | apps/gameserver/src/Inventory.cpp:228-273 | refused exactly as the code refuses, and then nothing changes; otherwise the item is in its slot, or is the mount, its index takes the first free cell, its bonuses are added, and sums, attack speed and visible indexes are those of the items that are on |
| Inventories.Inventory.PutOff | apps/gameserver/src/Inventory.cpp:275-306 | the item leaves its slot, or is the mount no more, its bonuses are taken away, and sums, attack speed and visible indexes are those of the items still on |
| Inventories.Inventory.Trash | apps/gameserver/src/Inventory.cpp:215-226 | only an item that is owned and not on is thrown away |
| Inventories.Inventory.Insert | apps/gameserver/src/Inventory.cpp:135-169 | an unknown index or a taken local id is refused; otherwise the item is owned, and put on without asking if its row says so; if there is room, everything stays as one would compute it |
| Inventories.WornItemsAgree | apps/gameserver/src/Inventory.cpp:135-306 | after any run what is on is owned, indexes of things on are distinct, a two-handed sword and a shield are never both worn, and everything on has a cell |
| Inventories.LoadingOverWornIsRightIff | apps/gameserver/src/Inventory.cpp:145-152 | a loaded row that is on in an occupied slot keeps a sum right exactly when the item it replaces gave nothing to it |
| Progress.ClimbConserves | apps/gameserver/src/Player.cpp:1095-1108 | levelling up keeps total experience below the cap, ends within the need of the level, and grants what the levels grant |
| Progress.PointsByLevel | apps/shared/inix/common.h:170-180 | the points granted at each single level |
| Progress.LevelPassedIff | apps/gameserver/src/Player.cpp:1091-1108 | a level is passed exactly when total experience exceeds the needs of all levels up to it |
| Progress.AwardsAdd | apps/gameserver/src/Player.cpp:1066-1111 | two awards are one award of their sum, in level, experience and both kinds of points |
| Progress.CostsAdd | apps/shared/inix/common.h:182-197 | the price of raising a stat does not depend on the steps |
| Progress.PricesByValue | apps/shared/inix/common.h:79-134 | the price of raising a stat by one at each single value |
| Progress.FullStatCosts | apps/shared/inix/common.h:78-134 | a stat costs 1200 points from zero to the cap, the sum the table notes, and a class's own stat 950 |
| Progress.SpendingAdds | apps/gameserver/src/Player.cpp:608-631 | a distribution costs the difference of what the stats cost from zero |
| Progress.NextKeepsBalance | apps/gameserver/src/Player.cpp:633-676 | no handler makes or loses points |
| Progress.PointsAreConserved | apps/gameserver/src/Player.cpp:608-910 | over any run, points left plus points spent minus points granted stay the same for stats and for skills, and no stat passes the cap |
| Progress.FindNeedPu | apps/shared/inix/common.h:183-189 | the loop over the table computes the price |
| Progress.FindNeedPuEx | apps/shared/inix/common.h:191-197 | likewise for the stat of the class |
| Progress.Player.LevelUp | apps/gameserver/src/Player.cpp:1136-1149 | one level, one skill point and the stat points of the new level |
| Progress.Player.UpdateExp | apps/gameserver/src/Player.cpp:1066-1111 | an award climbs as far as it pays: total experience is kept below the cap, and points are granted for the levels climbed; a loss stops at zero |
| Progress.Player.GetReqPu | apps/gameserver/src/Player.cpp:608-631 | the price by class, which fits into sixteen bits |
| Progress.Player.OnUpdateProperty | apps/gameserver/src/Player.cpp:633-676 | all stats are raised when the cap and the points allow it, otherwise none |
| Progress.Player.MayLearn | apps/gameserver/src/Player.cpp:940-987 | may be learned exactly when the skill exists, level, class and points suffice, the skill it builds on is high enough, and it is below its highest level |
| Progress.Player.OnSkillUp | apps/gameserver/src/Player.cpp:858-887 | a known skill rises by one for one point |
| Progress.Player.OnLearnSkill | apps/gameserver/src/Player.cpp:889-911 | an unknown skill is learned at level one for one point |
| Monsters.HurtIsAccounted | apps/gameserver/src/Monster.cpp:161-166 | damage goes from health to the ledger, and the total grows by it modulo 2^64 |
| Monsters.TotalIsDealtIff | apps/gameserver/include/Monster.h:47-48 | the total is the damage in the ledger exactly when it started from zero |
| Monsters.SharesAddUp | apps/gameserver/src/Monster.cpp:169-191 | a total not below the damage makes shares that sum to at most the experience; one equal to it loses less than one for each attacker when all get theirs |
| Monsters.Monster.ReceiveDamage | apps/gameserver/src/Monster.cpp:161-166 | more damage than health throws, other damage is entered |
| Monsters.Monster.DistributeExp | apps/gameserver/src/Monster.cpp:169-191 | each attacker whose party id is zero gets its part rounded down, the ledger is empty, and a share of a total of zero has no defined value |
| Monsters.Monster.Strike | apps/gameserver/src/Player.cpp:742-758 | a hit is a step of the run model; a kill divides by the full health and whatever the total started from |
| Monsters.Monster.RestoreInitialState | apps/gameserver/src/Monster.cpp:151-159 | so is coming back to life |
| Monsters.LivesAreBalanced | apps/gameserver/src/Monster.cpp:151-191 | through any number of lives the ledger holds the health lost in this one; what the total started from stays in it until the first death and no longer |
| Monsters.TotalsAreRightIff | apps/gameserver/include/Monster.h:48 | after any run the total is the damage in the ledger exactly when it started from zero or the monster has died |
| Monsters.LeftoversSpoilShares | apps/gameserver/src/Monster.cpp:169-191 | a first total for which the divisor is zero, and one for which the only attacker gets nothing |
| Kills.TakenForAloneIff | apps/gameserver/src/Monster.cpp:176-177 | a kill takes a player for one without a party exactly when it is in none or in the first that was founded |
| Kills.Strike | apps/gameserver/src/Monster.cpp:169-191 | whose shares a kill pays, in terms of the parties |
| Kills.FirstPartyIsPaid | apps/gameserver/src/Monster.cpp:171-187 | a world with two parties, each of which deals half of the damage: the first is paid, the second is not |
| Spawns.World.Add | apps/gameserver/include/World.h:319-333 | a monster whose id is taken is refused |
| Spawns.World.CreateSpawn | apps/gameserver/src/Spawn.cpp:71-86 | every new monster of an area is in the world |
| Spawns.World.Summon | apps/gameserver/src/Monster.cpp:132-135 | a summoned monster is in the world and in no area |
| Spawns.World.RemoveDeadMonsters | apps/gameserver/include/World.h:264-280 | exactly the monsters knocked out leave the world, and are flagged |
| Spawns.World.RespawnOnWorld | apps/gameserver/src/Spawn.cpp:61-69 | a removed monster is back under an id that was never used, so adding it cannot fail |
| Spawns.World.TickSpawn | apps/gameserver/src/Spawn.cpp:44-59 | all monsters of the area are in the world, and those that lived keep their ids |
| Spawns.World.Tick | apps/gameserver/include/World.h:239-258 | the dead leave, areas that are due are complete again, the living keep their ids, what is back has one that was never used, and an area's monster is in the world exactly when it is not removed |

## Left out

- Entities are values with a key and a position. That the map and the tree hold pointers to the same character,
  whose coordinates a move writes in place, is not modelled; the map removes the old value and inserts the new.
- Children of a square are kept in one sequence of four instead of four pointers, and the loop over the four
  calls stands for the calls. There are no parent pointers on the heap: `Collapse.CascadeRefinesRemove` shows
  that climbing them does the same as merging on the way back.
- QuadTree.Quad.Remove: either the entity is stored and the removal goes through, which is
  `Collapse.RemovalGoesThroughIff`, or nobody stands at its position. Where it does not go through, the code
  follows a null pointer; where somebody else stands there, it counts the position down wrongly.
- QuadTree.Quad.Insert: every step has to find a child, as the code follows a null pointer where one does not;
  when that is so is `Placing.FindsIffPlaces`. The id of the entity is new.
- WorldMaps.WorldMap.Add: the id is new, as ids come from a counter; the tree can place the character, as above.
- WorldMaps.WorldMap.Remove: within the boundary the tree can remove the character or nobody stands there, as
  above.
- WorldMaps.WorldMap.Move: likewise, and its steps are integers without bounds. The third coordinate, the direction the
  walker faces and whether it stops are left out.
- WorldMaps.WorldMap.Teleport: the client of a player that teleports starts with nothing on its screen.
- MapRuns.Replay: positions are free, which keeps the tree canonical (`MapRuns.Perform` does not ask for it);
  characters that walk stay on the map, and loot does not walk.
- Sight.MoveKeepsExact: is about what is in view and about all characters but loot; `Sight.MoveShowsLootIff`
  is about loot that comes into range.
- Distances are exact integer roots; the code takes the root of a double.
- Containers keep one map by kind and id; the code keeps one for each kind. Iteration orders are left open.
- `search`, memory figures and dumps of the tree.
- Letters and digits are the ASCII ones, as in the C locale. Floating point numbers stay the texts they are
  read from and printed as; that two places do not tell all of them apart is not part of this model.
- Reader.PrintingReadsBackIff: dotted pairs and the error value, which the reader never makes inside a tree,
  cannot be written in the model.
- Parsers.Parser.ParseList: the callback is left out, and its argument is the result.
- Lists are not freed: `destroy`, `copy` and the life time of cells on the stack.
- Framing.Client.OnNewMessage: what a client does after it has copied a packet of more than 32768 bytes beyond
  its array is not defined, and the model stops there.
- Packets.Packet.FromBytes: the bytes have to be a well-formed packet, as the assertion in the code says.
- Packets.Packet.PopStr: a scan for NUL beyond the payload is not followed; a NUL found there throws as well.
- The framing loop of the server, which reads a length without looking whether there is one.
- Sessions: user ids never wrap around, and a link that has closed stays closed, as game servers do not connect
  again. Secondary passwords, player lists and characters are left out.
- Sessions.DatabaseManager.Login: what the account table says is a parameter.
- Levels are fixed while a party lasts, and party ids never wrap around. Messages to members are left out, and
  whether two players are near each other is a parameter of the handlers.
- Inventories.Inventory.Insert: items of the tables are well made, and a wearable one has a slot, which the
  code asserts. Of the info bits of an item only the one for being on is kept.
- Level, experience and points are unbounded, as 64, 16 and 8 bits are never used up by what is modelled; only
  the price of a distribution is shown to fit. The table of needs is any table of one hundred entries.
- `CalculateExp`, health and damage formulas, and what skills do when they are applied.
- Monsters.Monster.DistributeExp: shares are exact quotients rounded down; the code multiplies long doubles.
  Experience for parties is not shared out by the code.
- Spawns: times and places of spawning are left open, ids are unbounded, and experience and health are in
  `Monster`.
- Chat, commands, animations, non-player characters, loot tables and the layout of game messages.
