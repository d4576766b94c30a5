# Akalynth: chronicle, drops and maps

A Dafny model of the parts of the Akalynth repository that other parts, and
people outside the server, have to be able to rely on.

- **Map generator.** A tile array painted in phases (border, districts, roads,
  spawn, gate, houses, decor) from counter-indexed random streams, with a
  stack search after every obstacle and a rollback when the obstacle would cut
  something off. The generator is proved to finish without throwing for every
  accepted parameter set and every stream, and its maps to be valid and
  connected.
- **Chronicle.** One log carries three interwoven chains: per actor, global,
  and signed lines. The model holds both writers (the fixture generator's and
  the server's), the slice checks, the single-pass log verifier and the rebuild
  after a restart, and proves what a head binds, where writers and verifiers
  agree, and where they do not.
- **Rulebook root.** The Merkle reduction that repeats the last node of an odd
  level, and what its root binds.
- **Death drops and their offline verifier.** The weighted selection, and the
  verifier that judges a receipt. "verified" is characterised exactly, and the
  receipts and logs of the fixture generator are proved to reach it.
- **Builder drafts.** The key-sorting serializer and the manifest checksum.
- **Phone tutorial.** The player object, an invariant over all runs, and an
  exact answer to which maps can be finished.

Loops, arrays and objects that the code updates in place are methods, arrays
and classes here, each proved against a function on values; the theorems are
about those functions.

Hashing is an arbitrary function. No fixed-size hash is injective, so a
binding theorem asks only that the function has no collision on the texts that
were actually hashed; each theorem names that finite set. Ed25519 (section 5.1
of RFC 8032) is an arbitrary pair of "this text is a key" and "this signature
verifies", and `exp`, the w-th root and the value of a JSON number are
arbitrary functions on reals, with monotonicity assumed only where a lemma
says so. Canonical JSON is not assumed to be injective: it is printed, and a
reader written apart from the printer (sections 2 to 8 of RFC 8259) is proved
to get every value back.

What a verdict or a hash rests on is stated twice where it matters: through the
functions that compute it, and as facts about the fields of the receipt, the
entries and the hashed texts (`VerifiedFacts`, `LesserVerdicts`, `LogFacts`,
`WriterFacts`), with a proof that the two say the same.

What the proofs turned up about the code:

- The witness kernel's lines name the hash of the previous event
  (crates/chronicle/src/lib.rs:149-186), although its own description
  (crates/chronicle/src/lib.rs:16-21) and the verifier of signed slices
  (packages/shared/chronicleChain.ts:344-348) speak of the previous line. A
  slice of the server's file authenticates only if it holds at most one line,
  and the receipt that is "verified" beside the fixture writer's log is
  "failed" beside the server's record of the same events.
- The log verifier applies its v0 rule to every entry that carries a
  commitment and its reveal, and afterwards the v1 rule to reveal events. No
  commitment opens under both unless the hash collides, so any log with an
  `rng_reveal` event is rejected, the honest log of a verified receipt
  included. The deferred-draw branch cannot be reached.
- The head rebuild of the unit test parses whole lines. It restores the heads
  from bare JSON lines, as that test writes them, and finds nothing in a log
  file of either writer; on a mixed file it needs each actor's last line bare.
  The server's own boot reads the JSON part of a line; it restores every head
  exactly, except that it skips events with an empty actor name, and a strict
  boot refuses exactly the logs with such an event.
- The offline verifier throws, instead of answering, on exactly the
  well-formed loot drops that list items and name a map under which no policy
  is found (for a v2 proof, with a secret at hand). A name inherited from the
  object prototype, such as "constructor", finds something that is no policy:
  there nothing drops, and a receipt with no dropped ids can be "verified".
- By itself "verified" binds no kill. A line's signature covers its recorded
  `canonical_json` and a receipt's signature its recorded `event_hash`, and
  neither is compared with the entry or the receipt it stands in. So under the
  signatures of any authentic slice of three lines or more the entries and the
  receipt can be those of any other provable kill, and the first line's
  signature serves as the receipt's, although
  docs/RNG_OUTCOME_VERIFICATION.md:440-441 says that "verified" never rests on
  a forgeable slice. Two comparisons close the gap, and exactly they: each
  `canonical_json` is the text of its entry, and `event_hash` is what
  `computeReceiptHash` gives. When no signature at hand is forged, a "verified"
  receipt is one the key's holder issued, with the beginning of the holder's
  log, if and only if both come out.
- Two different files that `localeCompare` calls equal make the rulebook root
  depend on the directory walk. Lists that repeat an entry can share a root;
  lists without repeats cannot.
- Completing the tutorial needs the Tem tile and the gate only. Generated maps
  have a reachable gate but no Tem tile.

`dafny verify dfyconfig.toml` checks the whole project.

## Model

| member | source | states |
|---|---|---|
| `Grid.ReachableFrom` | tools/map-compiler/generate.ts:134-159 | the stack search marks a tile if and only if a 4-neighbour walkable path from the start leads to it, for every grid and start; it terminates on (unmarked tiles, stack depth) |
| `Grid.VisitNeighbour` | tools/map-compiler/generate.ts:150-157 | one neighbour step keeps the search state, and either changes nothing or leaves fewer unmarked tiles |
| `Grid.SearchDone` | tools/map-compiler/generate.ts:140-158 | when the stack is empty the marked set is the reachable set |
| `Layout.Normalize` | tools/map-compiler/generate.ts:228-247 | accepts exactly named, seeded, finite integral sizes of at least 16 by 16, and every accepted parameter set is in range |
| `Layout.AcceptedParams` | tools/map-compiler/generate.ts:221-246 | an accepted request keeps its name, seed and size; a count in range is kept without its fraction, one outside gives the bound it passes; three houses, districts by the inner area and Azura fill the gaps |
| `Layout.PhaseSeedBinds` | tools/map-compiler/generate.ts:257-262 | no two phases and no two parameter sets share the seed of a stream, for digests of one length without a collision on the texts |
| `MapGen.StreamsByName` | tools/map-compiler/generate.ts:257-262 | the three streams are the indexed draws of the seeds of "districts", "roads" and "decor" |
| `Layout.PhaseRng.Range` | tools/map-compiler/generate.ts:97-118 | draws advance the counter by one stream value, or by none for an empty range |
| `Layout.PlaceDistricts` | tools/map-compiler/generate.ts:274-299 | the districts loop yields the layout the stream determines |
| `Layout.DistrictByDraws` | tools/map-compiler/generate.ts:276-299 | size, place in the cell and kind of a district from its draws, by position in the stream |
| `Layout.CentreIsMiddle` | tools/map-compiler/generate.ts:130-130 | a centre leaves as many columns and rows before it as after it, or one more |
| `Layout.DistrictsAreInterior` | tools/map-compiler/generate.ts:276-299 | every district tile lies strictly inside the border, for all sizes and draws |
| `Layout.DistrictsAreSeparated` | tools/map-compiler/generate.ts:284-298 | any two districts have a free row or column between them |
| `Layout.LandmarkDistricts` | tools/map-compiler/generate.ts:293-299 | exactly one gate and one residential district, and `find` picks the first, second and last district |
| `Layout.SpawnAndGate` | tools/map-compiler/generate.ts:332-340 | spawn and gate are different interior tiles |
| `Terrain.PaintField` | tools/map-compiler/generate.ts:265-272 | the border is wall and the inside grass, tile for tile |
| `Terrain.PaintDistricts` | tools/map-compiler/generate.ts:301-308 | each interior tile is floor inside a district and grass elsewhere; the border stays wall |
| `Terrain.CarveRoads` | tools/map-compiler/generate.ts:310-330 | after the roads phase each interior tile is Stone if it is on an L-shape the coin draws picked, and otherwise as before; walls are untouched |
| `Terrain.RoadByDraw` | tools/map-compiler/generate.ts:318-329 | an even draw bends the road after its horizontal leg, an odd one after its vertical leg |
| `Terrain.RoadsConnectAllDistricts` | tools/map-compiler/generate.ts:310-330 | any two district centres are joined by Stone tiles alone, whichever way each road bends |
| `Houses.PlaceHouses` | tools/map-compiler/generate.ts:342-383 | the two nested scans with their counter and taken-set place exactly the plots of the scan order |
| `Houses.PlotsComplete` | tools/map-compiler/generate.ts:342-383 | with an open interior the fallback always finishes: the full number of distinct interior plots off spawn and gate |
| `Houses.ResidentialComesFirst` | tools/map-compiler/generate.ts:342-366 | plots take the lots of the residential district first, every second tile inside its rim; others follow only when the lots are used up |
| `Decor.WalkableNeighbor` | tools/map-compiler/generate.ts:161-168 | the first walkable neighbour in the order east, west, south, north, or none |
| `Decor.FindAnchors` | tools/map-compiler/generate.ts:385-391 | the gate and one access tile per plot that has one |
| `Decor.StillConnected` | tools/map-compiler/generate.ts:392-395 | true if and only if every anchor is reachable from spawn |
| `Decor.TryObstacle` | tools/map-compiler/generate.ts:403-414 | an attempt leaves the tiles either with the obstacle and every anchor reachable, or exactly as before (rollback) |
| `Decor.AttemptByDraws` | tools/map-compiler/generate.ts:403-414 | where an attempt lands, by its draws; an obstacle is kept if and only if the tile is free and no anchor is cut off; water in Azura on one draw in four, else wall |
| `Decor.Decorate` | tools/map-compiler/generate.ts:397-414 | the decor loop is that many attempts in stream order |
| `Decor.AttemptsAreEightPercent` | tools/map-compiler/generate.ts:398-399 | the number of attempts is eight percent of the interior tiles, rounded down |
| `Decor.DecorIsSafe` | tools/map-compiler/generate.ts:397-414 | after any number of attempts protected tiles and the border are unchanged and every anchor is reachable |
| `Decor.PlotStaysReachable` | tools/map-compiler/generate.ts:386-402 | a plot with an access tile stays reachable itself |
| `MapValidation.ValidateMapData` | packages/shared/map-validation.ts:37-84 | every error, in the order it is pushed; none if and only if the map is well formed |
| `MapValidation.NoErrorsIffWellFormed` | packages/shared/map-validation.ts:37-84 | no error exactly for a positive size, one known tile per cell and a walkable spawn inside |
| `MapValidation.ErrorsSay` | packages/shared/map-validation.ts:37-84 | which error says what, if and only if |
| `MapValidation.TileErrorsAreTheBadPositions` | packages/shared/map-validation.ts:57-61 | an unknown-tile error for exactly the positions of unknown tiles |
| `MapGen.BaseIsOpen` | tools/map-compiler/generate.ts:265-340 | before decor, walkable tiles are exactly the interior |
| `MapGen.PlotsAreGood` | tools/map-compiler/generate.ts:342-383 | exactly housePlotCount plots, distinct, interior, off spawn and gate, for every accepted parameter set |
| `MapGen.EveryAttemptIsSafe` | tools/map-compiler/generate.ts:385-421 | after every attempt, kept or rolled back: border wall, known tiles, protected tiles unchanged, gate reachable |
| `MapGen.EveryPlotStaysReachable` | tools/map-compiler/generate.ts:385-421 | after every attempt each plot and its access tile are reachable |
| `MapGen.MapIsDetermined` | tools/map-compiler/generate.ts:253-446 | same parameters and streams give the same map, tile for tile |
| `MapGen.MapIsWellFormed` | tools/map-compiler/generate.ts:432-433 | the generated map satisfies the authored-map validator |
| `MapGen.MapIsConnected` | tools/map-compiler/generate.ts:416-433 | in the finished map the gate tile, every plot and a tile next to every plot are reachable from spawn |
| `MapGen.SpawnTile` | tools/map-compiler/generate.ts:332-340 | in the finished map the spawn tile is grass in grassland and stone elsewhere |
| `MapGen.NoWaterOutsideAzura` | tools/map-compiler/generate.ts:410-411 | outside Azura no attempt ever leaves a water tile |
| `MapGen.BuildBase` | tools/map-compiler/generate.ts:265-340 | border, districts, roads, spawn and gate on the mutable tile array give the closed-form base map |
| `MapGen.GenerateMap` | tools/map-compiler/generate.ts:253-446 | refuses exactly what normalize refuses; otherwise neither the reachability guard nor the validator throws, for every random stream, and the map has the name, width, height and number of plots that were asked for, numbered and priced in order |
| `Merkle.NextLevel` | apps/server/tools/genesis-rulebook.ts:136-145 | one level: pad an odd level with its last node, hash neighbours |
| `Merkle.MerkleRootFromEntries` | apps/server/tools/genesis-rulebook.ts:126-148 | the loop computes the reduction, and ends, for every list including the empty one |
| `Merkle.RootIsTreeDigest` | apps/server/tools/genesis-rulebook.ts:126-148 | the root is the digest of the tree the same padding builds over the entries |
| `Merkle.EntryLeadsToRoot` | apps/server/tools/genesis-rulebook.ts:109-148 | inclusion: from the hash of "leaf", its path, a zero byte and its digest, the siblings along its way, left or right by the bits of its place, lead to the root; the root of the empty list |
| `Merkle.TreeDeterminesList` | apps/server/tools/genesis-rulebook.ts:136-145 | padding only repeats: the tree gives back the list of distinct entries in order |
| `Merkle.DigestBindsTree` | apps/server/tools/genesis-rulebook.ts:109-124 | equal digests mean equal trees; the prefixes keep leaves, nodes and shapes apart |
| `Merkle.RootBindsEntries` | apps/server/tools/genesis-rulebook.ts:126-148 | equal roots mean the same distinct entries in the same order, for any two lengths; equal lists when neither repeats an entry |
| `Merkle.RepeatedEntrySharesRoot` | apps/server/tools/genesis-rulebook.ts:137-139 | where binding of repeated lists ends: an odd list of three or more shares its root with the list that repeats its last entry |
| `Merkle.RulebookRoot` | apps/server/tools/genesis-rulebook.ts:218-235 | the root of the files sorted by path; without ties any other walk over the same files gives the same root |
| `Merkle.RootsOfWalks` | apps/server/tools/genesis-rulebook.ts:218-235 | two walks over distinct files have the same root if and only if they sort alike |
| `Merkle.RootIgnoresWalkIffNoTies` | apps/server/tools/genesis-rulebook.ts:218-235 | the root of distinct files is independent of the directory walk if and only if the path order tells all of them apart |
| `Merkle.TwoSpellingsTwoRoots` | apps/server/tools/genesis-rulebook.ts:218-219 | two files named by two spellings that the order ties: the walk decides the root |
| `Merkle.WalkOrderIrrelevantIffNoTies` | apps/server/tools/genesis-rulebook.ts:218-219 | the sorted list, too, is independent of the walk exactly without ties |
| `CanonicalText.PrintedReads` | packages/shared/hashPrimitive.ts:7-9 | a reader of JSON text written from RFC 8259, which knows nothing of the printer, gets every printed value back and stops where it ends |
| `CanonicalText.MembersAscend` | packages/shared/hashPrimitive.ts:7-9 | members stand in ascending order of their keys: each key is a proper beginning of the next or smaller at the first character where they differ |
| `CanonicalText.ArrayForms` | packages/shared/hashPrimitive.ts:4-9 | compact text puts a bare comma between items, spaced text a comma and a space |
| `CanonicalText.ObjectForms` | packages/shared/hashPrimitive.ts:4-9 | and a bare colon after a key, or a colon and a space |
| `CanonicalText.PrintUnique` | packages/shared/hashPrimitive.ts:7-9 | no printed value is a proper beginning of another in any context |
| `CanonicalText.PrintInjective` | packages/shared/hashPrimitive.ts:4-9 | canonical text is equal if and only if the JSON values are equal |
| `BuilderDraft.StringifyPrintsMeaning` | packages/shared/builderDraft.ts:115-126 | stableStringify prints the JSON value in the spaced form, its members sorted, at every depth |
| `BuilderDraft.StringifyReadsBack` | packages/shared/builderDraft.ts:115-126 | a reader gets the value back, and the members of an object in ascending order of their keys, each with its value, whatever order they were inserted in |
| `BuilderDraft.StableStringifyCanonical` | packages/shared/builderDraft.ts:115-126 | equal output if and only if equal values up to member order |
| `BuilderDraft.ComputeManifestChecksum` | packages/shared/builderDraft.ts:129-137 | the loop over a clone blanks the sample digests, then the text is hashed |
| `BuilderDraft.DraftsDifferInSampleDigests` | packages/shared/builderDraft.ts:129-137 | two manifests are the same draft if and only if they agree on everything but the digests under paths that end in the name of the sample; those count as 64 zeros |
| `BuilderDraft.ChecksumTextBindsManifest` | packages/shared/builderDraft.ts:115-137 | the hashed text is equal if and only if the manifests are the same draft |
| `BuilderDraft.ChecksumBindsManifest` | packages/shared/builderDraft.ts:115-137 | equal checksums if and only if the same draft, for a hash without a collision on the two texts |
| `Rng.CommitV1Binds` | packages/shared/rng.ts:27-35 | a v1 commitment opens to one domain, actor and reveal |
| `Rng.SchemesDisagree` | packages/shared/rng.ts:12-35 | no reveal opens one commitment under both the v0 and the v1 scheme, although they share a domain text (without a collision on the two texts) |
| `Rng.InventoryCommitBinds` | packages/shared/rng.ts:88-102 | an inventory commitment opens to one salt and one inventory, for salts of one length |
| `Rng.DerivedSeedBinds` | packages/shared/rng.ts:53-70 | a derived seed binds secret, world, domain and event, for parts of fixed length |
| `DropPolicy.UnitFloat` | packages/shared/rng.ts:45-48 | the unit draw is in (0, 1] |
| `DropCounts.UnitsAscend` | packages/shared/rng.ts:45-48 | a larger draw gives a larger unit, but 0 counts as 1; the largest gives 1 |
| `ChronicleChain.VerifyGlobalChainSlice` | packages/shared/chronicleChain.ts:179-234 | accepts if and only if every entry recomputes and links; reports count and head, or the first failing index with its exact reason |
| `ChronicleChain.VerifyEntry` | packages/shared/chronicleChain.ts:186-231 | the first check of the loop body that fails, in order |
| `ChronicleChain.ConcatenationComposes` | packages/shared/chronicleChain.ts:171-183 | a concatenation is accepted if and only if the first part is, and the second from its head; same final head |
| `ChronicleChain.HeadBindsLog` | packages/shared/chronicleChain.ts:49-115 | two logs accepted from genesis with the same head have the same length and agree on every header field, stripped payload and link |
| `ChronicleChain.EventTextBinds` | packages/shared/chronicleChain.ts:78-89 | equal event hashes mean the same header, payload hash and predecessor, without any global field |
| `ChronicleChain.DomainsSeparate` | packages/shared/chronicleChain.ts:15-16 | the texts of event and global hashes open with their own domains and never coincide |
| `ActorChains.ActorHeadBindsEntries` | apps/server/tools/verify-chronicle-chain.ts:228-273 | two logs the tool accepts in which the entries of an actor end at the same head hold the same entries of that actor, header, payload and links, whatever others wrote in between |
| `LogFacts.SliceInFields` | packages/shared/chronicleChain.ts:171-234 | a slice is linked if and only if, field by field, each entry records the hashes of its own texts and names the global hash of the entry before it |
| `LogFacts.FaultInFields` | packages/shared/chronicleChain.ts:186-231 | the reason an entry is refused for is the first of five facts about its fields that fails |
| `ChronicleChain.SoundHashIsNotGenesis` | packages/shared/chronicleChain.ts:96-115 | no sound entry has the starting value as its hash |
| `SignedLines.VerifySignedChainSlice` | packages/shared/chronicleChain.ts:312-359 | authenticated if and only if the key is usable and every line hashes, links from genesis and verifies; else the first entry without line material, or the first that fails |
| `SignedLines.LastLineBindsLines` | packages/shared/chronicleChain.ts:237-250 | authenticated slices, under any keys, whose last lines hash alike hold the same lines throughout |
| `Writer.ChainState.MakeEntry` | tools/verify-outcome/gen-fixtures-v2.ts:240-292 | the writer stamps the entry from the old heads and advances all three chains |
| `Writer.BuildSlice` | tools/verify-outcome/gen-fixtures-v2.ts:313-333 | a run of the writer from fresh heads |
| `WriterFacts.WrittenInFields` | tools/verify-outcome/gen-fixtures-v2.ts:240-292 | field by field: the header, capabilities and payload of the event, the hashes and heads it names, its signed line, and the heads the writer goes on from |
| `Writer.EntryRoundTrip` | packages/shared/chronicleChain.ts:145-159 | the JSON of a written entry passes the shape guard and reads back as the entry |
| `Writer.WrittenRecomputes` | tools/verify-outcome/gen-fixtures-v2.ts:256-270 | hashes stamped into a payload recompute, even when the payload already held those keys |
| `WriterTheorems.WriterIsGloballyLinked` | tools/verify-outcome/gen-fixtures-v2.ts:240-272 | for every event list the log is accepted by the slice check from genesis with the head the writer holds |
| `WriterTheorems.WriterChainsEveryActor` | tools/verify-outcome/gen-fixtures-v2.ts:257-271 | for every interleaving each actor's entries are chained from genesis and end at the writer's head for the actor |
| `WriterTheorems.WriterIsSigned` | tools/verify-outcome/gen-fixtures-v2.ts:274-291 | every written line authenticates under the matching key |
| `LogLines.LinesAreTheLog` | tools/verify-outcome/gen-fixtures-v2.ts:274-290 | the lines are the whole log lines of the written entries |
| `LogLines.AcceptableIgnoresLine` | apps/server/tools/verify-chronicle-chain.ts:204-492 | no check of the log tool looks at the fields of the line |
| `LogLines.ToolDecidesWriterLines` | apps/server/tools/verify-chronicle-chain.ts:183-493 | the log tool passes the lines of a writer run if and only if it accepts the random-number fields of each event and reveals follow commits |
| `LogLines.ToolPassesExactly` | apps/server/tools/verify-chronicle-chain.ts:183-493 | and that is: no reveal event, and the fields of every event pass |
| `WriterTheorems.RevealEventIsRejected` | apps/server/tools/verify-chronicle-chain.ts:284-294 | an entry of type rng_reveal fails the v0 rule or the v1 rule |
| `WriterTheorems.AcceptableLogHasNoReveal` | apps/server/tools/verify-chronicle-chain.ts:284-388 | so no accepted log publishes a reveal |
| `WriterTheorems.ToolImpliesSliceCheck` | apps/server/tools/verify-chronicle-chain.ts:455-492 | a log the tool accepts whose entries all carry global fields is accepted by the slice check with the same head |
| `LogTool.LineGivesItsJson` | apps/server/tools/verify-chronicle-chain.ts:187-198 | a four-part line gives back exactly its JSON, pipes inside it included |
| `LogTool.PlainLineReadAsItself` | apps/server/tools/verify-chronicle-chain.ts:190-198 | the plain fallback reads a line as itself if and only if it has fewer than three pipes |
| `LogTool.CheckRngV0` | apps/server/tools/verify-chronicle-chain.ts:275-339 | the v0 block accepts if and only if the commitment opens and the draws derive |
| `LogTool.CheckEntry` | apps/server/tools/verify-chronicle-chain.ts:204-492 | one entry passes if and only if it is fine on its own and continues the running state; the deferred-draw branch is unreachable |
| `LogTool.StepDecides` | apps/server/tools/verify-chronicle-chain.ts:228-273 | one step with the map of heads decides whether the longer log meets the per-actor and global projections |
| `LogTool.VerifyLog` | apps/server/tools/verify-chronicle-chain.ts:160-501 | the single pass accepts if and only if every projection is chained, entries recompute and reveals follow commits; counts, actors and head are those of the log; a rejection names the first line no acceptable log can contain |
| `LogFacts.EntryInFields` | apps/server/tools/verify-chronicle-chain.ts:204-492 | the checks of one entry, as facts about its fields and the hashed texts |
| `LogFacts.AcceptableIffWellKept` | apps/server/tools/verify-chronicle-chain.ts:204-492 | a log is acceptable if and only if each entry shows its own facts, names the last event hash of its actor and the last global hash, and a reveal has had its commitment |
| `LogFacts.PassesIffWellKept` | apps/server/tools/verify-chronicle-chain.ts:160-501 | the tool passes a file if and only if its lines read as such a log |
| `Rebuild.RebuildHeads` | apps/server/tools/test-rebuild-heads.ts:31-65 | one pass gives the head map and the ok and bad counts |
| `Rebuild.RebuiltIsLast` | apps/server/tools/test-rebuild-heads.ts:47-62 | an actor's rebuilt head is h if and only if h is the event hash of its last usable line |
| `Rebuild.MalformedLineIgnored` | apps/server/tools/test-rebuild-heads.ts:53-61 | a malformed line changes nothing, wherever it stands |
| `Rebuild.RebuiltIsLive` | apps/server/tools/test-rebuild-heads.ts:31-65 | whenever each line is read as its entry, the rebuilt map after any writer run is the live map without the empty actor name |
| `Rebuild.SameHeadsSameLinks` | tools/verify-outcome/gen-fixtures-v2.ts:256-271 | per-actor links depend only on the per-actor heads |
| `Rebuild.RestartContinuity` | apps/server/tools/test-rebuild-heads.ts:31-65 | for any reading that gives back the entries: stopping anywhere, rebuilding and carrying on is invisible in the per-actor chains if and only if no event had an empty actor name |
| `Rebuild.PipeLineIsBad` | apps/server/tools/test-rebuild-heads.ts:47-61 | a concrete log line counts as bad when it is parsed whole |
| `Rebuild.WholeLineParseFindsNothing` | apps/server/tools/test-rebuild-heads.ts:47-62 | parsing whole lines, the rebuild of a log file of the writer is empty and every line is bad |
| `Rebuild.HashesDiffer` | packages/shared/chronicleChain.ts:96-104 | no actor writes the same event hash twice, since each hash covers the one before it |
| `Rebuild.WholeLineParseNeedsBareJson` | apps/server/tools/test-rebuild-heads.ts:47-62 | on a log that mixes bare JSON lines and whole log lines in any way, the whole-line parse rebuilds the live map without the empty name if and only if the last line of every named actor is bare |
| `Rebuild.RestartFromLogFile` | apps/server/src/index.ts:1061-1091 | from the log file itself: by the JSON part of each line a restart is invisible if and only if no actor name was empty; by whole lines, if and only if nothing was written |
| `ServerLog.Server.ChronicleEvent` | apps/server/src/index.ts:1146-1226 | an event appends its line and advances the per-actor head, the global head, the ordinal and the last line hash |
| `WriterFacts.LoggedInFields` | apps/server/src/index.ts:1146-1226 | field by field: the event and its links as the fixture writer records them, and the object kept under "rng" |
| `ServerLog.Server.Boot` | apps/server/src/index.ts:1045-1144 | one pass rebuilds the per-actor heads, walks the global chain strictly and seeds the ordinal; a strict boot refuses exactly a log that is not clean |
| `ServerLog.Server.TakeLine` | apps/server/src/index.ts:1063-1110 | one line of the rebuild: the head it gives its actor, whether it is usable, and its step in the strict walk |
| `ServerLog.Server.ReadTail` | crates/chronicle/src/lib.rs:274-296 | the second field of the last line that has one |
| `ServerTheorems.TextParts` | crates/chronicle/src/lib.rs:149-186 | a line holds its JSON after three plain fields, the second of which is the new last hash |
| `ServerTheorems.LogsReadAlike` | apps/server/src/index.ts:1146-1226 | the server records the entries the fixture writer would, but for the fields of the line |
| `ServerTheorems.BootRestores` | apps/server/src/index.ts:1045-1144 | after any run a boot restores global head, ordinal and last hash exactly, and the per-actor heads but for the empty name |
| `ServerTheorems.BrokenLinkIsSkipped` | apps/server/src/index.ts:1084-1110 | a link that does not continue the global chain counts as one break and the walk goes on as if its line were not there |
| `ServerTheorems.LinkContinues` | apps/server/src/index.ts:1084-1110 | a link that does becomes the new head |
| `ServerTheorems.RestartIsInvisibleIff` | apps/server/src/index.ts:1045-1226 | a restart is invisible in the file, line for line and for ever, if and only if no event had an empty actor name, and a strict boot refuses exactly the other runs |
| `ServerTheorems.BootAgreesWithTool` | apps/server/src/index.ts:1058-1118 | on every file of four-part lines the log tool passes, the boot ends with the heads of the projections and finds no break |
| `ServerTheorems.ToolPassesServerFile` | apps/server/tools/verify-chronicle-chain.ts:183-493 | the log tool passes the server file if and only if no event is a reveal and the fields of every event pass |
| `ServerTheorems.WholeLineParseFindsNothingHere` | apps/server/tools/test-rebuild-heads.ts:47-62 | parsing whole lines finds nothing in the server file |
| `ServerVerdict.NamesEventNotLine` | packages/shared/chronicleChain.ts:344-348 | a line that names the event hash of the line before it does not authenticate |
| `ServerVerdict.ServerSliceAuthenticatesIff` | crates/chronicle/src/lib.rs:149-186 | a slice of the server file from its beginning authenticates under the matching key if and only if it holds at most one line |
| `ServerVerdict.FailingLineDecides` | packages/shared/verifyOutcome.ts:949-962 | a slice in order with a failing line is refused with the signature reason, and no other view is possible |
| `ServerVerdict.ServerSliceFails` | packages/shared/verifyOutcome.ts:873-1183 | beside the server record of an honest history every v2 proof of that kill is "failed", with the signature reason |
| `ServerVerdict.HonestReceiptFailsBesideServerFile` | packages/shared/verifyOutcome.ts:247-1196 | the receipt that is "verified" beside the log of the fixture writer is "failed" beside the server record of the same events |
| `DropPolicy.SelectItemsToDrop` | packages/shared/dropPolicy.ts:259-307 | dropped ids and recorded draws are those of the selection function, draw i at index i |
| `DropPolicy.ComputeDeathDrops` | packages/shared/dropPolicy.ts:330-371 | ids, kept ids, count and draws are those of the selection; throws exactly for a non-empty inventory on a map under which no policy is found |
| `DropPolicy.InheritedNameDropsNothing` | packages/shared/dropPolicy.ts:330-371 | under an inherited name such as "constructor" every inventory is answered: nothing drops and everything is kept |
| `DropCounts.WorseReputationRaisesRatio` | packages/shared/dropPolicy.ts:208-239 | a worse negative reputation raises the drop ratio strictly until it reaches 1 |
| `DropCounts.GoodReputationsAlike` | packages/shared/dropPolicy.ts:217-218 | reputations from 0 up all count alike |
| `DropCounts.MoreItemsRaiseRatio` | packages/shared/dropPolicy.ts:220-228 | each item beyond three raises the ratio strictly until it reaches 1, the first three do not |
| `DropCounts.BaseRatio` | packages/shared/dropPolicy.ts:223-228 | without bad reputation and with three items at most the ratio is that of the policy |
| `DropCounts.CountIsRoundedShare` | packages/shared/dropPolicy.ts:230-239 | the count is the share rounded to the nearest, within floor, cap and protected slots; the floor holds where the slots allow it |
| `DropCounts.SmallInventoryInAzura` | packages/shared/dropPolicy.ts:58-66 | of one, two and three items at good reputation 1, 1 and 2 drop |
| `DropCounts.TenItemsInAzura` | packages/shared/dropPolicy.ts:58-66 | of ten items 7 drop at good reputation and 8 at -20 |
| `DropCounts.SelectDropsExactly` | packages/shared/dropPolicy.ts:259-307 | with distinct ids exactly K items drop; all unprotected ones when there are no more, all the slots leave when those are fewer |
| `DropCounts.AzuraDropsExactly` | packages/shared/dropPolicy.ts:330-371 | a death in Azura drops exactly the count or every unprotected item, and at least one if there is one |
| `DropCounts.Weights` | packages/shared/dropPolicy.ts:73-185 | a plain item weighs 1, a mark token half, a legendary item 2.25 times as much at tier 1; more heat and a higher tier weigh strictly more |
| `DropCounts.MarksAndHeats` | packages/shared/dropPolicy.ts:158-173 | which marks make an item legendary, and which heat counts |
| `DropTheorems.SelectionPartitions` | packages/shared/dropPolicy.ts:207-307 | for any policy and weights: dropped and kept partition the inventory, nothing protected drops, at least min(N, protected_slots) items are kept |
| `DropTheorems.DeathDropsPartition` | packages/shared/dropPolicy.ts:330-371 | the same of a death on a map with a policy |
| `DropTheorems.SelectSpec` | packages/shared/dropPolicy.ts:259-307 | no more than K drop, none twice, only unprotected ids |
| `DropTheorems.PolicyKeepsLightest` | packages/shared/dropPolicy.ts:279-288 | the items the policy keeps weigh no more than any it exposes |
| `DropTheorems.SampledKeysAreHighest` | packages/shared/dropPolicy.ts:293-306 | when sampling runs exactly K candidates drop, draw i is the draw at index i, and the key of every dropped candidate is at least the key of every candidate left |
| `DropTheorems.DroppedByFallingKey` | packages/shared/dropPolicy.ts:293-306 | the dropped ids are listed by falling key |
| `DropTheorems.WorseReputationDropsMore` | packages/shared/dropPolicy.ts:208-239 | a worse reputation never makes fewer items drop |
| `DropTheorems.RookguardIsSafe` | packages/shared/dropPolicy.ts:48-57 | nothing ever drops in Rookguard |
| `DropTheorems.AlikeDrops` | packages/shared/dropPolicy.ts:330-371 | the result depends only on ids, weights and protection |
| `DropTheorems.LookupMakesItOffline` | packages/shared/dropPolicy.ts:13-18 | with a heat for every legendary item in the lookup, the server table plays no part |
| `LegendaryHeat.HeatTable.DecayCarried` | packages/shared/dropPolicy.ts:128-140 | one minute in a safe zone for the carried items |
| `LegendaryHeat.HeatStaysNonNegative` | packages/shared/dropPolicy.ts:103-121 | no sequence of sets, additions and decays makes a heat negative |
| `LegendaryHeat.ChangeIsExact` | packages/shared/dropPolicy.ts:103-127 | each change sets, raises or lowers one heat, never below zero, and leaves the others |
| `LegendaryHeat.CoolingIsExact` | packages/shared/dropPolicy.ts:117-140 | each carried legendary item loses 0.2 per listing, down to zero; every other heat is unchanged |
| `LegendaryHeat.CoolingNeverWeighsMore` | packages/shared/dropPolicy.ts:142-173 | cooling never raises a drop weight |
| `VerifyOutcome.ReconstructItems` | packages/shared/verifyOutcome.ts:396-412 | items, or nothing when any element is malformed |
| `VerifyOutcome.BuildHeatLookup` | packages/shared/verifyOutcome.ts:417-424 | the last numeric heat per item id |
| `VerifyOutcome.FindDeathEventIndex` | packages/shared/verifyOutcome.ts:736-751 | a position if and only if exactly one death event matches; -1 if and only if none does |
| `VerifyOutcome.FindRngEventIndex` | packages/shared/verifyOutcome.ts:756-770 | the first matching position, or -1 if and only if none |
| `VerifyOutcome.CheckSlice` | packages/shared/verifyOutcome.ts:873-988 | what the slice shows: each refusal reason with its meaning, a pending reveal, or the ordered commit and secret with the authentication result |
| `VerifyOutcome.CheckOrder` | packages/shared/verifyOutcome.ts:891-981 | position order commit before death before reveal, from recomputed links only |
| `VerifyV2.CheckDerivation` | packages/shared/verifyOutcome.ts:1011-1106 | commitment binding, draws and drops from the secret, with exactly the reasons for what fails |
| `VerifyV2.CheckAuthenticity` | packages/shared/verifyOutcome.ts:1114-1147 | the receipt signature under the signing key, or the auth key with its note |
| `VerifyV2.VerifyReceiptRngProofV2` | packages/shared/verifyOutcome.ts:773-1196 | the whole result record, reasons in order, or a throw, from what the slice shows; the last else of the ladder is unreachable |
| `VerifyV2.StatusLadder` | packages/shared/verifyOutcome.ts:1163-1183 | what each final status means |
| `VerifyV2.VerifiedIsClean` | packages/shared/verifyOutcome.ts:1163-1183 | "verified" if and only if no reason is given, and then all five checks passed |
| `VerifyV2.ThrowsOnUnknownMap` | packages/shared/verifyOutcome.ts:1067-1093 | the v2 recomputation throws if and only if the proof is well formed down to the outcome, lists items and names a map under which no policy is found |
| `Verifier.VerifyRngCommitReveal` | packages/shared/verifyOutcome.ts:159-202 | the immediate commit and reveal triple, with its exact reasons |
| `Verifier.VerifyReceiptRngProof` | packages/shared/verifyOutcome.ts:426-694 | the whole result for a version-1 proof |
| `Verifier.V1Ceiling` | packages/shared/verifyOutcome.ts:386-394 | a version-1 proof is never "verified"; "rng_consistent" if and only if body, commitment and derivation hold |
| `Verifier.VerifyCombatResolved` | packages/shared/verifyOutcome.ts:247-384 | the whole result for a combat receipt by proof version |
| `Verifier.CombatVerifiedIff` | packages/shared/verifyOutcome.ts:247-384 | of all combat results exactly those on full evidence are "verified" |
| `Verifier.EvidenceFixesView` | packages/shared/verifyOutcome.ts:873-988 | the evidence determines what the slice shows |
| `Verifier.VerifiedIsExact` | packages/shared/verifyOutcome.ts:1149-1183 | the ladder reaches "verified" if and only if the evidence is there: slice, order, commitment, draws, drops and signatures |
| `VerifiedFacts.VerifiedIffTold` | packages/shared/verifyOutcome.ts:773-1196 | that evidence, field by field and without any function of the verifier: the first commit and the precommit reference both hold the commitment to the text of the first reveal, draw i is draw i of the seed of secret, world, domain and seed hash, the ids are those the listed items drop, and every line and the receipt are signed; if and only if |
| `LesserVerdicts.V2StatusInFacts` | packages/shared/verifyOutcome.ts:1149-1183 | every status of a version-2 proof in the same facts, for each thing a slice can show |
| `LesserVerdicts.HashAndSignatureReasons` | packages/shared/verifyOutcome.ts:1108-1147 | what each reason about seed hash, precommit reference and signature says, if and only if |
| `LesserVerdicts.SliceAndSecretReasons` | packages/shared/verifyOutcome.ts:873-1106 | what each reason about the slice, the commitment, the draws and the drops says, if and only if |
| `LesserVerdicts.PlainStatusInFacts` | packages/shared/verifyOutcome.ts:318-384 | a receipt without a proof is "failed" on a wrong seed hash or a triple that does not fit, "rng_consistent" with one that does, else "replay_consistent" |
| `LesserVerdicts.V1StatusInFacts` | packages/shared/verifyOutcome.ts:426-694 | the status of a version-1 proof: body hash, draws from the seed, its commitment, and the drops of the listed or opened items |
| `LesserVerdicts.ShapeReasonsInFacts` | packages/shared/verifyOutcome.ts:260-299 | each of the six inputs has its own reason, given exactly when it is missing |
| `LesserVerdicts.TripleReasonsInFacts` | packages/shared/verifyOutcome.ts:159-202 | what each reason about a recorded triple says, if and only if |
| `LesserVerdicts.V1CommitReasonsInFacts` | packages/shared/verifyOutcome.ts:426-559 | what each reason about the commitment and draws of a version-1 proof says |
| `LesserVerdicts.V1DropReasonsInFacts` | packages/shared/verifyOutcome.ts:560-655 | and about its body hash and its drops |
| `Verifier.VerifyOutcomeFromReceipt` | packages/shared/verifyOutcome.ts:212-245 | over all receipts and contexts: "verified" if and only if that evidence exists, and if and only if no reason is given; throws if and only if the receipt is unanswerable |
| `Verifier.CombatThrowsIff` | packages/shared/verifyOutcome.ts:247-384 | unanswerable means: the right shape, a loot drop with items on a map under which no policy is found, and for a v2 proof a secret at hand; exactly these throw |
| `Verifier.V1ThrowsIff` | packages/shared/verifyOutcome.ts:560-655 | the same of listed or opened items of a version-1 proof |
| `Verifier.StrayReceiptThrows` | packages/shared/verifyOutcome.ts:1085-1093 | a concrete receipt that throws |
| `Vouching.SeedHashBindsKill` | packages/shared/verifyOutcome.ts:810-833 | the base hash is injective: verified receipts that record the same seed hash tell of the same killer, victim, map, position and outcome; no signature and no slice enters it |
| `Vouching.InventoryIsNotVouchedFor` | packages/shared/verifyOutcome.ts:1108-1147 | beside the very same slice, too, a verified receipt stays verified under its hashes and signature when its inventory and dropped ids are emptied |
| `Exchange.SignedByLines` | packages/shared/chronicleChain.ts:312-359 | authentication of a slice depends on the line fields alone |
| `Exchange.AnyKillUnderOneSignature` | packages/shared/verifyOutcome.ts:773-1196 | under the line signatures of any authentic slice and any one signature of two non-empty texts, every provable kill with a history of as many events has the evidence "verified" asks for; the signing function of its writer is arbitrary |
| `Exchange.EveryLengthHasHistory` | tools/verify-outcome/gen-fixtures-v2.ts:313-336 | every kill has a history of each length from three on |
| `Exchange.KillIsNotVouchedFor` | packages/shared/verifyOutcome.ts:1108-1147 | from a verified receipt to a verified receipt of any other kill under the same hashes, lines and signatures |
| `Exchange.FirstLineServesAsReceipt` | packages/shared/chronicleChain.ts:237-250 | the signature of the first line of an authentic slice serves as the signature of a receipt |
| `Genuine.LastLineBindsSlice` | packages/shared/chronicleChain.ts:237-250 | authentic slices whose lines record their entries are equal, field for field, if and only if their last lines hash alike |
| `Genuine.HashBindsBody` | apps/server/src/persist/hash.ts:93-110 | receipts that record the hash of their body agree on every field but the signature if and only if they record the same hash |
| `Genuine.RecordedEvidenceBinds` | packages/shared/verifyOutcome.ts:1108-1183 | of two verified receipts that pass both comparisons: equal last line hash and equal event hash, if and only if same slice and same receipt but for its signature |
| `Genuine.LinesAreOfTheLog` | packages/shared/chronicleChain.ts:334-356 | without forged signatures line i of an authentic slice is line i of the log of the key holder; a receipt signature cannot stand in for a line |
| `Genuine.VerifiedIsGenuineIff` | packages/shared/verifyOutcome.ts:773-1196 | without forged signatures a verified receipt is an issued one and its slice the beginning of the log (up to other valid signatures on the receipt and the last line), if and only if it passes both comparisons |
| `Genuine.HonestIsRecorded` | tools/verify-outcome/gen-fixtures-v2.ts:162-292 | the receipts and logs of the fixture generator pass both comparisons |
| `Genuine.HonestIsSource` | tools/verify-outcome/gen-fixtures-v2.ts:162-333 | and meet what these theorems assume of the log, the issued receipts and the signatures |
| `Honest.DistinctIdsAgree` | tools/verify-outcome/gen-fixtures-v2.ts:105-136 | prover and verifier look up the same heat for every legendary item when ids are distinct and heats recorded (or unknown to the prover) |
| `Honest.NumericHeatsAgree` | packages/shared/verifyOutcome.ts:417-424 | with repeated ids they do when each legendary item has a numeric heat and no other heated item shares its id |
| `Honest.SharedIdPartsTheLookups` | packages/shared/verifyOutcome.ts:417-424 | a legendary item of heat 5 and a torch of heat 9 under one id: the prover looks up 9, the verifier 5 |
| `Honest.SameWeight` | tools/verify-outcome/gen-fixtures-v2.ts:105-136 | where the lookups agree, the verifier weighs an item read back from the proof as the prover weighed the original; ids may repeat |
| `Honest.SameWeightsIffLookupsAgree` | tools/verify-outcome/gen-fixtures-v2.ts:105-136 | and no wider: for an injective exponential all weights agree if and only if the lookups do |
| `Honest.SameDrops` | tools/verify-outcome/gen-fixtures-v2.ts:103-136 | and derives the same drops |
| `Honest.DrawListMatches` | tools/verify-outcome/gen-fixtures-v2.ts:110-118 | the recorded draws are the indexed draws of the derived seed |
| `Honest.HistoryShows` | tools/verify-outcome/gen-fixtures-v2.ts:294-333 | the verifier finds in the written log exactly the commit, death and reveal of the history |
| `Honest.PlainHistory` | tools/verify-outcome/gen-fixtures-v2.ts:313-336 | every kill has such a history: commit, death, reveal |
| `Honest.HonestReceiptIsVerified` | tools/verify-outcome/gen-fixtures-v2.ts:79-333 | for any inventory without protected slot on which the two heat lookups agree, any reputation, known map and secret, and any surrounding events that do not compete, the honest receipt has the evidence "verified" asks for |
| `Honest.HonestLogIsRejectedByTool` | apps/server/tools/verify-chronicle-chain.ts:284-294 | while the log tool rejects the lines of that same log |
| `Tutorial.PhonePlayer.ApplyTileTrigger` | apps/phone-server/src/index.ts:377-403 | flags, reputation, objective and event of one tile |
| `Tutorial.PhonePlayer.MovePlayer` | apps/phone-server/src/index.ts:405-438 | the new state of a move and its reply, refusal reason included |
| `Tutorial.PhonePlayer.HandleChat` | apps/phone-server/src/index.ts:740-760 | the new state of a chat message |
| `Tutorial.EveryRunIsSane` | apps/phone-server/src/index.ts:329-465 | for a spawn on a walkable tile other than a gate, over every run: on a walkable tile, tem iff gate open, gate iff complete, on the gate only when open, flags only rise, reputation 1 iff complete, each raised flag emitted exactly once, last record at the current position |
| `TutorialTrail.MovesLeadHere` | apps/phone-server/src/index.ts:405-438 | over every run the recorded moves add up to the way from spawn to player: east and west along x, south and north along y, downwards |
| `TutorialTrail.EventsLieOnTheirTiles` | apps/phone-server/src/index.ts:377-403 | over every run each event was raised on its own kind of tile, and such a tile walked onto before completion has raised it |
| `TutorialTrail.ObjectiveIsFirstMissing` | apps/phone-server/src/index.ts:329-346 | the objective belongs to the first event still to come |
| `Tutorial.AlwaysSaneIffSpawnIsNoGate` | apps/phone-server/src/index.ts:368-375 | the spawn condition is exact |
| `Tutorial.CompleteWithoutAnchorOrSignal` | apps/phone-server/src/index.ts:377-403 | a run can be complete without the movement anchor or the signal tile |
| `TutorialGoals.Follow` | apps/phone-server/src/index.ts:368-438 | any path is walked by a run, if it avoids gate tiles or the gate is open |
| `TutorialGoals.RunsReachTheirGoalsIff` | apps/phone-server/src/index.ts:368-403 | some run opens the gate if and only if a Tem tile can be walked to without crossing a gate; some run completes if and only if, besides, a gate tile can be walked to |
| `TutorialGoals.GeneratedMapNeverOpensItsGate` | tools/map-compiler/generate.ts:263-414 | a generated map carries no Tem tile, so no run on it, as generated, opens its gate |

## Left out

- Strings are sequences of Dafny characters: lone surrogates, their escapes, and the UTF-16 order of keys with characters beyond U+FFFF are not modelled.
- Floating point: weights, keys and ratios are reals, so rounding, NaN, infinities and the order of keys that differ only by rounding are not modelled; a weight of zero or below is not given a meaning. JSON numbers are their shortest text.
- Layout.Normalize: NaN for a count is not modelled; every other number is, infinities included.
- Decor.Decorate: the attempt count `innerArea * 0.08` is computed as `innerArea * 8 / 100`.
- MapGen.GenerateMap: the SVG, the hashes of the manifest, the derived root seed it records, and the constant fields of a plot (size 1 by 1, district name) are left out; map size has no upper bound here.
- MapValidation.ValidateMapData: values are already sorted into integers and everything else; message texts are codes. `validateDraftId` and the builder-draft validators, which only test patterns, are left out.
- BuilderDraft.ComputeManifestChecksum: the clone is a value, so aliasing with the caller's object is not modelled; a changed file has a path and a digest and no other member.
- Merkle.RulebookRoot: the directory walk and the file reads are replaced by the list they yield, and file digests are bytes, so hex decoding is left out; the manifest, genesis record and operator key are left out.
- `Array.prototype.sort` is a stable sort on sequences, not a sort in place.
- Objects are maps: a payload that is an array counts as an empty object, and names inherited from the object prototype are modelled as map names, not as item types (whose weight is NaN there).
- SignedLines.VerifySignedChainSlice: hex decoding and key wrapping are inside the arbitrary key and signature predicates. As in the code, it authenticates the recorded JSON texts and does not compare them with the entries' fields.
- LogTool.VerifyLog: reading the file, splitting it at line feeds, skipping blank lines, exit codes and printed summaries are left out, and parsing JSON is a parameter. The reason of a rejection stands for a printed message and is not specified; the line number is. `--strict-rng` only matters for deferred draws, which never occur.
- Rebuild.RebuildHeads: parsing JSON is a parameter; a missing file is an empty list of lines.
- Writer.ChainState.MakeEntry: the entry is a value, and an event may carry capabilities, of which the fixture writer passes none.
- ServerLog.Server.ChronicleEvent: time, the world name and the rulebook root are given by the caller; values that are `undefined` in a payload are left out; the file is a list of lines that every append reaches; the kernel's serializer is taken to print the same canonical JSON (it orders keys by code point).
- ServerLog.Server.Boot: parsing JSON is a parameter; printed messages and blank lines are left out. The theorems about log files ask that hashes and signatures are written without a separator or quote, that parsing reads back the JSON that was written and, where whole lines are parsed, that no JSON text has a separator outside a string.
- VerifyV2.VerifyReceiptRngProofV2: as in the code, the receipt signature covers the two recorded hashes; that the recorded hash is the hash of the receipt body is not checked there.
- Honest.HonestReceiptIsVerified: an inventory with a protected slot is outside the theorem, because the proof's items do not carry slots, and so is one on which the two heat lookups part (Honest.SharedIdPartsTheLookups).
- DropPolicy: `decay_minutes` is never read by the selection and is left out.
- LegendaryHeat.HeatTable.DecayCarried: the decay rate is the real 0.2.
- HTTP, WebSocket, sessions, drafts, switching maps during play and the clock of chronicle records in the phone server; message texts are reduced to blank or not blank, and a `get_chronicle` request only reads.
- The React client, image tools, council and asset checkers, SQL verifiers, coordination kernel, persistence and treasury: user interface, I/O, database work or code not part of this model.
