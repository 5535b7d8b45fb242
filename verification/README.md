# Bytes that stay the same

A Dafny model of the parts of `hdx` that must not lose, invent or misplace a byte: recipes that take a
container apart and put it back together, the erofs reader they rest on, the hashing pool, the Bloom
filters, the evidence walk and its clusters, extent views and the range store, the sorted-parquet lookup,
and the member tree with its cache. `dafny verify dfyconfig.toml` checks all of it.

Each module follows one source file or one step of it:

- `recipe_*`: the planner, the erofs passes, the verify pass, the document and its rebuilder
  (`src/recipe_cmd.rs`). `RecipeMint` has the end-to-end theorems, `RecipeImages` those of planning an image;
  `RecipeCourse` is the planner as a function, which every planning method is proved to follow, and
  `RecipeTaken`, `RecipeRoutes`, `RecipeEmitted`, `RecipeMissing` and `RecipeWritten` say what the planner,
  the passes, the report and the document come to without following them;
  `RecipeGriefs` says over what inputs a mint comes to grief, and `RecipeHoles`, `RecipeWorlds` and
  `RecipeShelves` give such inputs: images with their maps, planned by the very passes of `RecipeImages`.
- `bit_fields`, `erofs_*`: compact indexes, extent maps, the packed cache and the reader (`src/erofs.rs`).
- `pool*`: the pool as a state machine over atomic steps, with its invariant over all interleavings
  (`src/peek_pool.rs`).
- `bloom*`, `dcso`, `filter_keys`: filters and their keys (`src/filter.rs`, `src/dcso.rs`, `src/filters_cmd.rs`).
- `evidence_walk`, `clusters`, `union_find`, `coords`: `src/walk.rs`.
- `views`, `range_store`: `src/peek_source.rs`, `src/range_store.rs`.
- `parquet_*`: `src/parquet_index.rs`. `member_*`: `src/report.rs`, `src/scan_cmd.rs`. `fat`: `src/fat.rs`.

Hashes and codecs are uninterpreted functions. Where a theorem needs that two byte strings are not confused
by their digest, it says so of the digests the document names, of the runs of the packed stream or of the
file that is read. Files, clocks, the network and the tables of other services are parameters.

The mint takes the outcome of the erofs passes as a function, and asks of it only that it tells the truth.
`RecipeImages.ScanIsTrue` says exactly when planning an image ends how, and that it tells the truth unless an
encoder was fed over a hole that shows under a cover. An image enters as what opening it gives: its files'
extent maps and its packed inode. Literals name places in everything that was ever spooled; a plan also
records where a spool was lost, and reading goes through the offset the literal had in its own spool, out of
the spool there is. So a mint whose spool was lost and filled again is in the model, and `RecipeMint.Mint`
says what its document is then worth.

## Model

| member | source | states |
|---|---|---|
| RecipeMint.Mint | src/recipe_cmd.rs:264-560 | Over an unchanged container: the document names the root's digest and every reference in it carries a claim; with nothing it needs missing it rebuilds exactly the root's bytes if every node it rests on re-encodes to its stored bytes from what its literals read as now, and only then, where no fetched blob or attested member has the digest of anything built. The verify pass refuses exactly when it goes through a node whose literal can no longer be read; writing panics exactly when a tabled member needs a table of its own; a panic while planning goes back to a child that maps onto itself or a sweep that trips; a root with a digest, a size and a space is always plannable. A claimed root is one reference, one that an archive ships an extract, any other the plan of `PlanNode`; planned from its parts, the root is a compression node exactly when a run over its only child makes it. The document says, node by node and entry by entry, how that plan makes the root, each archive once, and its residue is what the verify pass captured |
| RecipeMint.Check | src/recipe_cmd.rs:3368-3490 | What is missing is reported before any rebuilding: each reference without a blob that the root leads to is listed once, and a digest is in the list exactly when such a reference has it. A check of a document that rebuilds `bytes` returns them exactly when nothing is missing; whatever it returns under a root digest is the one byte string with that digest |
| RecipeMissing.MissingIff | src/recipe_cmd.rs:3611-3693 | A digest is missing exactly when it is no blob and some reference with it is reached from the node through build inputs, slices, source links and the archives of extracts, without passing a node whose output is a blob |
| RecipeMissing.CollectMissing | src/recipe_cmd.rs:3620-3693 | One pass over a node adds every such reference, in the order met, and nothing that is listed already |
| RecipeMint.NeverWrong | src/recipe_cmd.rs:14-18 | "A recipe is never wrong": whatever a node with the root's digest denotes, with true or false attestations and any blobs, is the root's bytes |
| RecipeRebuild.NodeIsFaithful | src/recipe_cmd.rs:3209-3320 | Every node written from a true plan carries its member's digest; if what it rests on re-encodes from what its literals read as now, assembling it gives exactly the member's bytes when nothing it needs is missing, and nothing otherwise: splices, slices, compression, extract and pcluster nodes, literals inline and from the residue |
| RecipeExposed.Exposed | src/recipe_cmd.rs:3695-3863 | The other direction: a written node that denotes anything, none of whose built digests is fetched or attested, rests only on nodes that re-encode; so one node that does not shows in the rebuild |
| RecipeReread.ReadsRightIsSturdy | src/recipe_cmd.rs:2878-2890 | Where every literal the verify pass goes through reads as it was spooled, every node re-encodes |
| RecipeSpool.ReadsWrongIff | src/recipe_cmd.rs:1692-1697 | A literal reads wrong exactly when its spool was lost and the spool there is ends before its place, or has other bytes there |
| RecipeClaims.NodeLeads | src/recipe_cmd.rs:3088-3320 | A written node of a sound plan makes no reference without a claim: what no index verifies has collapsed into literals |
| RecipeCheck.CheckCtx.Assemble | src/recipe_cmd.rs:3695-3863 | The memoising interpreter gives what the node denotes wherever it denotes anything, and never returns bytes a node's digest does not name |
| RecipeCheck.ResolvesIff | src/recipe_cmd.rs:3492-3508 | A node resolves exactly to what its links through the table lead to, however many they are: only a walk that goes round is refused as a loop |
| RecipeDocument.WrittenIffKnown | src/recipe_cmd.rs:3209-3320 | A settled member can be written exactly when the table knows every member it reaches through splices within splices |
| RecipeWritten.NodeTells | src/recipe_cmd.rs:3209-3320 | A written node, read back, says how the plan makes its member: extracts with archive, path and URL, compression with its run and its child, splices segment by segment, whole ranges without a slice, literals inline or by their place in the residue, and a reference with all its claims otherwise |
| RecipeDocument.SourcesJson | src/recipe_cmd.rs:3113-3159 | The sources table: each archive digest once, claimed by the first extract that names it and in the order of those extracts, then the tabled members in ascending order; none exactly when a member cannot be written without a table |
| RecipeVerify.Verifier.VerifyAll | src/recipe_cmd.rs:2864-3034 | On an unchanged file the re-splice digests always come back: the pass fails exactly when some literal it must hand to the residue cannot be read from the spool there is; otherwise the root and every planned tabled member are done with |
| RecipeCapture.LiteralsDoNotShare | src/recipe_cmd.rs:2864-3034 | Residue capture: every non-inline literal owns a span of its own, no two share a byte, and a build reachable twice is captured once |
| RecipeCapture.ResidueIsFilled | src/recipe_cmd.rs:2813-2833 | The spans are consecutive from zero in capture order: no byte of the residue is there for nothing |
| RecipePlanner.Planner.PlanNode | src/recipe_cmd.rs:956-987 | Planning a member leaves the plan sound (every entry true of the bytes, referring only to children that lead somewhere), touches nothing outside the member's subtree, and leaves no entry for a member it turns down; the root is turned down only for want of a size or a space. The member gets a compression node exactly when it is a wrapper with a known header whose one child some run turns into its bytes, and the node is then that of the first such run. The whole plan is the one worked out step by step in `RecipeCourse`. A lone image with one source comes out exactly as its scan says: in the plan with the findings, out of it, with the spool lost, or in a panic; and so, one after another, do the images of a splice build |
| RecipePlanner.Planner.PlanBuildInner | src/recipe_cmd.rs:1189-1270 | The splice build: the tiling assertion fires exactly when one of the accepted children maps onto itself; otherwise the accepted pieces and literal gaps tile the member. A child is accepted exactly when it maps in, leads somewhere, and no piece of it overlaps a piece of an earlier accepted child; the build has exactly their pieces |
| RecipeTaken.MakerIff | src/recipe_cmd.rs:957-1171 | A member is made by a run exactly when it is a wrapper in readable extents, its header is probed, its only child leads somewhere and the first reproducing candidate of the search, gzip or zstd, turns the child's bytes into the wrapper's |
| RecipeTaken.AcceptedAreTaken | src/recipe_cmd.rs:1207-1252 | The splice build takes, in order, exactly the children that map in, lead somewhere and overlap nothing taken before |
| RecipeRoutes.MappedInIff | src/recipe_cmd.rs:1189-1250 | A child maps into its parent exactly when it is worth naming, lies in the space the parent is built in, and each run of it lies in one run of the parent; its pieces stand where the first such runs put them |
| RecipeRoutes.SubtreeLeadsIff | src/recipe_cmd.rs:1009-1030 | Something below a member leads somewhere exactly when a child of it does, or something below a child |
| RecipeRoutes.ReferencedIff | src/recipe_cmd.rs:2542-2572 | A source is in use exactly when an entry of the plan refers to it or a planned pcluster slices it |
| RecipePlanning.SelfOverlapsIff | src/recipe_cmd.rs:1238-1251 | A child maps onto itself only if its own runs overlap, and exactly then when its parent's runs are disjoint |
| RecipeGriefs.DisjointRunsNeverFold | src/recipe_cmd.rs:2507-2515 | Where every member's own runs are disjoint no child maps onto itself, so the tiling assertion never fires |
| RecipePlanner.Planner.SpliceIn | src/recipe_cmd.rs:2457-2505 | Late splices: what stood in the build and what came find their places first come first served, the gaps are re-tiled around them, and the tiling assertion cannot fire |
| RecipePlacing.TurnedAwayOverlaps | src/recipe_cmd.rs:2457-2505 | A late segment with a place in one run of the image is turned away only because it overlaps one that is in |
| RecipeRoutes.PlacedIff | src/recipe_cmd.rs:2457-2505 | A late segment has a place exactly when one run of the image has all of it, and the first such run says which |
| RecipePlacing.PlacedIsFaithful | src/recipe_cmd.rs:2457-2505 | Moved through the image's runs, fragmented or not, a late segment still stands for the image's bytes |
| RecipePlacing.FreeIffApart | src/recipe_cmd.rs:238-252 | An interval set that knows the accepted segments admits a span exactly when it is disjoint from all of them |
| RecipeTiling.SortedTilingSucceedsIffApart | src/recipe_cmd.rs:2507-2535 | Sorted by start, non-empty segments tile without tripping the assertion exactly when they are pairwise disjoint |
| RecipeTiling.MappedReadsBack | src/recipe_cmd.rs:222-232 | A logical range mapped through extent runs reads exactly that range of the member's bytes |
| RecipeMatcher.Matches | src/recipe_cmd.rs:2602-2640 | A run's output, whatever chunks it comes in, is accepted exactly when it is the rest of the wrapper, to the last byte |
| RecipeMatcher.SearchGzip | src/recipe_cmd.rs:2646-2672 | The first candidate in search order that reproduces the wrapper's body; none is found exactly when none of them does, or the header is all there is |
| RecipeMatcher.SearchZstd | src/recipe_cmd.rs:2675-2700 | The same for a zstd frame, whose flags come from its own header |
| RecipeMatcher.CompressorIff | src/recipe_cmd.rs:2646-2700 | A search, gzip or zstd, comes back with a run exactly when some candidate reproduces the wrapper |
| RecipeCovers.WalkTakesTheCovered | src/recipe_cmd.rs:2231-2257 | With covers in start order, overlapping or not, the walk takes exactly the covered bytes of a span, each once |
| RecipeCovers.SpanIsFaithful | src/recipe_cmd.rs:2223-2257 | Every verbatim splice names a member range whose bytes are the image's where it lands, in order and without overlap |
| RecipeCovers.SpanIsSpliced | src/recipe_cmd.rs:2223-2257 | Every piece of the walk longer than an inline literal is spliced, and nothing else is |
| RecipeCovers.RotationIsFaithful | src/recipe_cmd.rs:2268-2290 | The two splices of a rotated pcluster are faithful and disjoint |
| RecipeCovers.RotationInvertsDecoding | src/erofs.rs:1158-1172 | What decodes from a full rotated block is exactly what rotates back onto it |
| RecipeCovers.MergedCovers | src/recipe_cmd.rs:2292-2303 | The merged spans cover exactly what the covers do, ascending and separate |
| RecipeCovers.Overlap | src/recipe_cmd.rs:2304-2322 | The overlap of a span with such a union is the number of its bytes they cover |
| RecipePCluster.TilingReproducesIff | src/recipe_cmd.rs:2391-2452 | The tiled inputs of a node concatenate to what was fed exactly when what was fed agrees with the stream on every byte a cover takes |
| RecipePCluster.NodeIsMadeIff | src/recipe_cmd.rs:2324-2455 | A node is made exactly when the stored bytes are not all padding, some run reproduces them before the encoder fails, and a cover has part of what that run was fed |
| RecipePCluster.PlannedIsTrue | src/recipe_cmd.rs:2324-2455 | A node names only its covers' members, and rebuilds the stored bytes wherever its covers are right and what was fed agrees with the stream under them |
| RecipePCluster.PlanPCluster | src/recipe_cmd.rs:2324-2455 | The node made, its inputs, settings, padding and the literals it spools are exactly those of the first run that gives the stored bytes; otherwise which failure it was |
| RecipePCluster.SearchRun | src/recipe_cmd.rs:2350-2390 | Without a match every preset and feed length was tried; a run that starved while the stream went on is no verdict |
| RecipePCluster.SearchHitsIff | src/recipe_cmd.rs:2350-2390 | The search hits exactly when some run reproduces the stored bytes and the encoder fails in none before it |
| RecipePCluster.SearchEnding | src/recipe_cmd.rs:2350-2390 | The first run that reproduces the stored bytes or breaks the encoder ends the search, and a hit has its preset and its length; without such a run the ending says whether some run starved |
| RecipePCluster.RunReproducesIff | src/recipe_cmd.rs:2336-2383 | A run reproduces exactly when the encoder, asked for the stored bytes past their zeros, gives them, and was not cut short of input that was still to come; it is fed the span, or the span and 4 KiB, 64 KiB or the margin past it, as far as there are bytes |
| RecipePCluster.PresetsTried | src/recipe_cmd.rs:2337-2345 | A known preset is tried alone; otherwise 6, then all plain and all extreme presets in ascending order |
| RecipeSweep.Sweep | src/recipe_cmd.rs:1846-2045 | The sweep gets through exactly when every needed pcluster can be dealt with and no cover trips over a hole, and panics exactly when a cover trips before anything else goes wrong. It gives up exactly the members with an unproved cover that does not lie whole in what is decoded or does not hash to the member's digest; nodes, splices and spool are those of the pclusters in order |
| RecipeSweep.EmittedIsSound | src/recipe_cmd.rs:1958-2045 | Every splice is the image's bytes where its cover is right, and every node is true where, besides, what its encoder was fed agrees with the stream under the covers |
| RecipeEmitted.SweepAdds | src/recipe_cmd.rs:1958-2045 | Pcluster by pcluster, what the sweep adds: the splices of each span stored plainly or turned, a node wherever the run that settles the search gives the stored bytes and a cover has part of its input, and otherwise nothing; the preset of the last node is tried alone |
| RecipeSweep.PanicIsTheTrip | src/recipe_cmd.rs:1950-1957 | Where every needed pcluster can be dealt with, the sweep panics exactly when a cover trips |
| RecipeHashing.GiveUpRest | src/recipe_cmd.rs:2020-2032 | In the end exactly the members are given up with an unproved cover that does not lie whole, or does not hash to their digest |
| RecipeHashing.PanicsIffTrips | src/recipe_cmd.rs:1950-1957 | At a decoded pcluster the hashing panics exactly when some cover ran into a hole before it, and then in a build with overflow checks always, without them only if the cover also ends before the pcluster (and otherwise it stands still and is given up) |
| RecipeSweep.WindowIsRunIff | src/recipe_cmd.rs:1976-1986 | An encoder's window is a run of the stream exactly when no hole lies between the two pclusters or all it takes of the second is zeros |
| RecipeSweep.WhenWindowsAgree | src/recipe_cmd.rs:1976-1986 | A node is safe all the same where no cover reaches past its pcluster |
| RecipePasses.PackedPass | src/recipe_cmd.rs:1567-1740 | Nothing where there is nothing to try; else a panic exactly when the sweep trips first, the spool lost exactly when a needed pcluster cannot be dealt with, and otherwise exactly what the sweep found without what slices a member given up |
| RecipePasses.KeptIsExact | src/recipe_cmd.rs:1700-1725 | Splices are kept exactly when they slice no member given up, nodes exactly when none of their inputs does, in the order of the sweep, splices first |
| RecipePasses.UsedInLine | src/recipe_cmd.rs:1634-1672 | The covers in use are those that share a byte with an eligible pcluster, by start, the longest first, and those of one span in the order given |
| RecipePasses.PackedIsTrue | src/recipe_cmd.rs:1567-1740 | Whatever the packed pass reports is true of the image and slices only the members it was given, but for a node whose encoder was fed over a hole that shows under a cover |
| RecipePasses.TrippedIff | src/recipe_cmd.rs:1950-1957 | Where every needed pcluster can be dealt with, the packed pass panics exactly when a cover trips over a hole |
| RecipePasses.PlanOwnFile | src/recipe_cmd.rs:2060-2180 | One file against its own pclusters: stops at the first that cannot be read, and keeps what the rest gave exactly when the file reads back as its member |
| RecipePasses.OwnFileIsProvedIff | src/recipe_cmd.rs:2060-2180 | A file's findings are kept exactly when its bytes are its member's; nothing is ever spooled for it, so they hold whatever the plan's spool has |
| RecipeEmitted.OwnFindings | src/recipe_cmd.rs:2060-2180 | What is found in a file, pcluster by pcluster: a node over the one range of the file that was fed wherever a run gives the stored bytes, one splice of a span stored plainly, two of one stored turned, from windows that reach the margin or the end of the file |
| RecipeImages.ScanImage | src/recipe_cmd.rs:1505-1561 | Both passes over an image, from its extent maps to findings: which of finished, refused, spool lost and panic it ends in, and with what, is a function of the maps, the bytes and what is spooled |
| RecipeImages.ScanIsTrue | src/recipe_cmd.rs:1505-1561 | Planning an image is refused exactly when a file of it cannot be read, panics exactly when a cover trips over a hole before anything else goes wrong, and loses the spool exactly when it does not and a needed pcluster cannot be dealt with; what it finds is true, but for nodes whose encoder was fed over a hole that shows under a cover |
| RecipeImages.SolidScans | src/recipe_cmd.rs:1505-1561 | Over a packed inode without holes it never panics and all it finds is true |
| RecipeImages.StoredIs | src/erofs.rs:1158-1172 | A stored extent keeps its places and its kind, and a full block is spliced as turned exactly if turning is how it decodes |
| RecipeImages.FilePassIsTrue | src/recipe_cmd.rs:1505-1561 | The file pass ends early exactly at a file that cannot be read, proves exactly the files that read back as their members, and finds only what holds |
| RecipeImages.GatherCovers | src/recipe_cmd.rs:1581-1640 | The covers are those of the sliceable files' packed extents, in file order |
| RecipeImages.CoversAreGathered | src/recipe_cmd.rs:1581-1640 | A cover is gathered exactly if it is a packed extent of a file that is a source, has its member's size, is worth slicing, and either lies whole in the packed inode or was proved |
| RecipeImages.CoversAreClaimed | src/recipe_cmd.rs:1581-1640 | Every cover is claimed rightly: a whole file by its size, a tail as the file's own bytes because the file pass proved the file |
| RecipeGriefs.AfterALossFailsIff | src/recipe_cmd.rs:1692-1697 | When nothing was spooled after the last sweep that failed, the verify pass fails exactly when it goes through a node with a literal in the spool |
| RecipeGriefs.WithoutLossAllReads | src/recipe_cmd.rs:1692-1697 | While no sweep fails with something in the spool, the verify pass never fails, every literal reads back as it was spooled and every node re-encodes |
| RecipeGriefs.MintLost | src/recipe_cmd.rs:1692-1697 | A container of images whose first one spools literals for its first finding, and whose last loss has no image spooling after it, is never minted: the verify pass refuses |
| RecipeGriefs.MintNested | src/recipe_cmd.rs:3113-3159 | An image sure to slice an image that slices a third member is never minted from its parts: writing the table panics |
| RecipeShelves.MintRefilledShelf | src/recipe_cmd.rs:1692-1697 | A container of three images, one that spools, one whose sweep fails and one that spools other bytes at the same place: the mint ends normally, its document names the root, and does not rebuild it |
| RecipeShelves.MintLosingShelf | src/recipe_cmd.rs:2878-2890 | The same with the third image's sweep failing too: the verify pass refuses over the lost spool |
| RecipeWorlds.MintCrossed | src/recipe_cmd.rs:1950-1957 | An image one of whose files lies across a hole of the packed inode: the sweep panics and the mint with it |
| RecipeWorlds.GappedPairIsWrong | src/recipe_cmd.rs:1976-1986 | An image whose window takes in a hole under a cover, at which planning comes back with a node that is not true |
| RecipeHoles.GappedNodeIsFalse | src/recipe_cmd.rs:2391-2452 | That node re-encodes to other bytes than are stored |
| RecipeWorlds.MintNestedWorld | src/recipe_cmd.rs:3113-3159 | An image holding an image holding a file, at which writing the sources table panics |
| RecipeWorlds.MintFolded | src/recipe_cmd.rs:2507-2515 | A container that lists one range twice, at which the tiling assertion fires |
| ErofsFile.ReadFile | src/erofs.rs:719-1461 | End to end, from the place of the index area to the bytes: a file whose compact indexes are a packed cluster list is read exactly when the list fits the file, and draining the reader with buffers of any sizes gives the file the image stores, plain, rotated, compressed or in the packed stream; an empty file reads empty |
| ErofsFile.IndexArea | src/erofs.rs:930-945 | The index area of a file: the wide packs before it are the fewest that bring it to a 32-byte boundary, then narrow packs in sixteens as long as they last, if the inode has them, then wide ones |
| ErofsLayout.OneAreaIsLaid | src/erofs.rs:930-945 | What is asked of an index area leaves only one |
| ErofsLayout.GetCompact | src/erofs.rs:1295-1392 | On an area packed from a well-formed cluster list, wherever its narrow packs have room, a lookup gives back type, offset, block count and block address, the walk back for the address included |
| ErofsLayout.ReadableIff | src/erofs.rs:1295-1330 | Every well-formed cluster list can be read back from a layout exactly when it has no narrow packs or lclusters of at most 12 bits |
| ErofsLayout.NarrowIsMisread | src/erofs.rs:1295-1330 | With 13 or 14 bits and narrow packs, one well-formed list is misread whatever the buffer holds |
| ErofsLayout.ReadsStayInside | src/erofs.rs:909-977 | Every pack a lookup reads lies inside the buffer sized from the last lcluster |
| ErofsIndex.DecodesAsPacked | src/erofs.rs:1330-1392 | Each entry of a pack decodes to the lcluster it was packed from, big and ordinary pclusters alike |
| ErofsMap.BuildZPlan | src/erofs.rs:719-907 | The extents follow each other from 0 to the size; on the indexes of a cluster list the build succeeds exactly when the list fits the file, and its extents are the list's pclusters, the tail in the packed inode or behind the indexes; an empty file has no extents, and a file the header puts whole into the packed inode has one |
| ErofsMap.TailOffset | src/erofs.rs:827-851 | The tail's offset in the packed inode, whose upper half is the last head's block number in a full map |
| ErofsMap.BlocksIff | src/erofs.rs:862-881 | How many blocks a head's pcluster takes: what is counted where its kind may be big and it is not the last lcluster, an error where it should be counted and is not, and one otherwise |
| ErofsMap.AlgIff | src/erofs.rs:818-826 | The compression formats of the header and their codes |
| ErofsMap.ScanHeads | src/erofs.rs:768-806 | On those indexes the scan succeeds exactly when the first head starts the file and every head starts inside its lcluster, and finds exactly the heads that own bytes |
| ErofsMap.PlanChunked | src/erofs.rs:587-645 | Chunk-based files: the chunk table tiles the file, a null chunk a hole, the last chunk short |
| ErofsReader.Drain | src/erofs.rs:1400-1461 | Draining a fresh reader with buffers of any positive sizes gives the file's bytes once and in order |
| ErofsReader.PackedCache.Read | src/erofs.rs:1084-1136 | Reads through the evicting cache are never empty inside the stream and always the stream's own bytes; the cache stays within its budget |
| ErofsReader.PackedCache.Chunk | src/erofs.rs:1107-1136 | A decoded pcluster joins the line unless it is in it, and only as many of the oldest leave as must for the budget |
| ErofsReader.ZReader.Read | src/erofs.rs:1400-1461 | A read gives all that was wanted of what is left of its extent; short of that only where the packed stream's own extent ends |
| ErofsReader.PackedExtentsAreRanges | src/erofs.rs:187-202 | A packed extent's span of the stream is the file's bytes at the extent's place |
| ErofsRaw.InterlacedReads | src/erofs.rs:1158-1172 | Rotated storage: logical byte k is the stored byte k places past the skip, around the end |
| PoolClaims.StreamInOrder | src/peek_pool.rs:279-340 | In every interleaving, bytes hashed, then bytes being hashed, then chunks pending are exactly the stream handed to a job, a prefix of what was pushed |
| PoolClaims.OneWorkerAJob | src/peek_pool.rs:609-680 | No two workers are ever inside the same job |
| PoolClaims.HasherIsThere | src/peek_pool.rs:652-680 | A worker that finds chunks pending always finds the hasher |
| PoolClaims.SealedExactlyOnce | src/peek_pool.rs:216-275 | Over any run a member is sealed at most once |
| PoolClaims.SealedIsWhole | src/peek_pool.rs:216-372 | A sealed member had its stream and its metadata closed, and carries under every scheme the digest of everything pushed |
| PoolDrain.BudgetIsExact | src/peek_pool.rs:581-607 | The budget in use is the bytes handed to jobs or owed by flushes under way, less what was released |
| PoolDrain.BlockedFlushHasWork | src/peek_pool.rs:303-318 | With two threads or more a flush held up by the budget always leaves someone else able to go on |
| PoolBounds.PoolIsBounded | src/peek_pool.rs:581-607 | Over any run, while the pool is open the bytes in flight stay within the budget; with two threads or more one of them is always left to hash |
| PoolWaiting.WaitingEnds | src/peek_pool.rs:704-717 | With two threads or more, nothing left in the walker's hands and read tasks still queued or feeding their members: what workers and readers do comes to an end within a bound, and where nothing more can happen every member is sealed, over the whole of what it was fed and its read had still to give unless that read was given up |
| PoolStuck.OneThreadSticks | src/peek_pool.rs:421-445 | With one thread: the steps from the start to a state in which nothing the pool can do is left and a member is not sealed |
| BloomFold.FoldsKeepMembers | src/filter.rs:127-207 | However often a filter is folded, every member stays a member, and each fold halves it |
| BloomFold.Fold | src/filter.rs:127-207 | Output bit i is source bit i or source bit i + m/2, nothing leaks across word shifts or into the tail, and the reported fill is the output's; odd sizes and bad files are refused with their error |
| BloomFold.WordAtIsArithmetic | src/filter.rs:178-187 | Off a word, the 64 bits read are as a number the low word shifted down plus the high word shifted up, wrapped at 64 bits: the two shifts never overlap |
| BloomWords.OnesCounts | src/filter.rs:127-207 | The fill is counted in bits that are set |
| BloomFilter.Builder.Add | src/filter.rs:77-83 | An insert adds one key: the bits set are exactly the probe positions of the keys added |
| Dcso.CheckWith | src/dcso.rs:111-121 | The early-exit probe answers whether every probe position is set; a filter of no bits cannot be probed |
| BloomFilter.Builder.Write | src/filter.rs:84-106 | The file opens as the filter it is: version one, the sizes it was made for, as many elements as keys were added, and a bit set exactly where a key probes |
| Dcso.FieldsInOrder | src/dcso.rs:40-77 | The header is its six numbers in order, each least significant byte first |
| Dcso.KnownHash | src/dcso.rs:84-100 | The hash of the one byte 0x61, and the first probe it leads to |
| Dcso.LastByteIsLow | src/dcso.rs:84-91 | The hash multiplies before it mixes in a byte: the last byte of a key changes the low byte only, and always does |
| Dcso.HeaderWritesBack | src/dcso.rs:40-77 | A header that parses is the one its bytes spell |
| FilterKeys.BuiltKeyIsProbed | src/filter.rs:215-222 | A digest is added under the key it is probed by, exactly unless it is an md5 digest with a letter in its hex |
| FilterKeys.Md5KeyIsMissed | src/filters_cmd.rs:145-170 | One such digest |
| Clusters.ClusterEvidence | src/walk.rs:108-222 | The clusters are exactly the connected components of findings under shared identity-grade coordinates, in order, with their primary and collision flags |
| Coords.PartDecides | src/walk.rs:146-178 | Digests are listed by the first byte in which they differ |
| Clusters.WeakStandsAlone | src/walk.rs:108-222 | A finding without an identity-grade coordinate is alone in its cluster |
| Clusters.AtMostOnePrimary | src/walk.rs:190-222 | An identity-grade query has at most one primary cluster |
| Clusters.ContradictedNotAdopted | src/walk.rs:126-150 | A query key that a row contradicts is not adopted there |
| UnionFind.Union | src/walk.rs:112-126 | Union by root merges exactly the two components; path compression keeps every component and the forest acyclic |
| EvidenceWalk.WalkIsComplete | src/walk.rs:55-101 | A walk short of the cap gathers exactly the findings of the coordinates within reach of its hops |
| EvidenceWalk.WalkIsSound | src/walk.rs:55-101 | Everything gathered is what a source said of a coordinate within reach, each finding once |
| EvidenceWalk.CapIsPassedIff | src/walk.rs:86-101 | The cap is passed exactly when the hop that reaches it has a later coordinate, not looked up yet, with a finding not seen yet, and then by one for each such coordinate |
| EvidenceWalk.CapIsPassed | src/walk.rs:94-96 | Two well-formed seeds at which the walk ends with a thousand and one findings |
| Views.View.Slice | src/peek_source.rs:98-118 | A slice reads as the clamped sub-ranges of the view's bytes, one after another, for any fragmentation |
| Views.SliceOfSlice | src/peek_source.rs:98-118 | Slicing a slice is slicing once |
| Views.View.ReadFullAt | src/peek_source.rs:121-131 | Positional reads fill the buffer with the view's bytes, stopping short only at its end or at a byte the source does not have |
| Views.View.ReadToEnd | src/peek_source.rs:156-162 | Sequential reads with buffers of any size give the text from the cursor on |
| Views.SpoolStream | src/peek_source.rs:189-225 | A spooled stream, in memory or on disk, reads as the whole stream, and every chunk was fed in order |
| RangeStoring.MissMakesProgress | src/range_store.rs:59-104 | A failed read is served once its miss is inserted exactly if it lies inside the file, and no read that was served stops being, wherever the miss was |
| RangeStoring.MissesAreBounded | src/range_store.rs:59-104 | No decoder can miss for ever |
| RangeStoring.Drive | src/range_store.rs:198-221 | The retry driver ends as the decode would on the whole file, within the square of the file's length, and within n tries for n exact reads; it gives up only at its limit |
| ParquetLookup.ScanKeyColumn | src/parquet_index.rs:101-186 | The page-skipping scan of a sorted group gives the first match and the number of matches, with or without a page index |
| ParquetLookup.FirstRecord | src/parquet_index.rs:117-136 | The scan begins at the first page whose bounds admit the key, not at all if none does, and at the first record without a page index; no match comes before |
| ParquetRows.FindRows | src/parquet_index.rs:420-457 | The exact total, and the rows of the groups' spans up to the cap in file order; they are the linear filter's wherever nothing else stands among the matches read, and so in every file whose groups keep a key's rows together |
| ParquetRows.SpansAreLinearIff | src/parquet_index.rs:420-457 | What is read is what the linear filter keeps exactly when, in each group rows are read from, no other cell stands among the matches read |
| ParquetRows.NullIsReadForKey | src/parquet_index.rs:440-457 | A sorted group with an empty cell between two equal keys, whose row is read in place of the second |
| ParquetRefs.RowsAt | src/parquet_index.rs:366-415 | The rows at any places, in any order and as often as asked; nothing if one is past the end |
| MemberListing.ListingIsPermutation | src/report.rs:172-191 | The listing has every member of the table once |
| MemberListing.SubtreeIsARun | src/report.rs:172-191 | A member's subtree is one contiguous run of the listing |
| MemberTree.TreeOrder | src/report.rs:172-191 | The explicit-stack traversal is the preorder with children in order of their place |
| MemberReplay.CacheRoundTrip | src/scan_cmd.rs:173-255 | Caching a replayed container gives back the very rows it was replayed from |
| MemberReplay.ReplayAndCompact | src/scan_cmd.rs:173-255 | Rows replayed into the reserved slots, and the table compacted, hold the container again, at the place counted from the slots kept before its own, each row at its slot's place: same digests, sibling order, relative depths and paths |
| MemberReport.Rollups | src/report.rs:141-165 | Each container's tally is over exactly the leaves under it |
| MemberReport.SumAddsUp | src/report.rs:141-165 | The tallies are how many leaves under the container are known, unknown and under the floor |
| FatChains.Fat.Chain | src/fat.rs:198-222 | A chain is read exactly when following the table stays in the data area and comes to an end; loops are refused; the runs expand to exactly the clusters visited, in order |
| FatChains.Fat.EntryUnpacks | src/fat.rs:162-186 | An entry of 12, 16 or 32 bits, packed end to end, is read back, without the four bits a 32-bit entry keeps for itself |
| FatChains.Fat.GoesOnIff | src/fat.rs:187-194 | A chain goes on from every entry but the two least and the nine greatest an entry can have |
| FatChains.Fat.ClustersTile | src/fat.rs:147-149 | The clusters tile the data area: each of its bytes is in exactly one, and no other byte is |
| FatChains.TruncateRuns | src/fat.rs:341-353 | Exactly the first `size` bytes the runs name |

## Findings

Properties the code does not have, each with the input and the exact condition proved above.

| property | where it fails | what holds |
|---|---|---|
| A digest put into a built filter is found when looked up | `src/filters_cmd.rs:160` adds md5 keys in lower case, `src/filter.rs:217` probes them in upper case | `FilterKeys.BuiltKeyIsProbed`: found exactly unless the scheme is md5 and the hex has a letter |
| A planned recipe can always be written | `src/recipe_cmd.rs:3153` writes tabled members against an empty table and panics over one that needs the table itself | `RecipeDocument.WrittenIffKnown`, `RecipeGriefs.MintNested`; `RecipeWorlds.MintNestedWorld` is such a container |
| The tiling assertion never fires | `src/recipe_cmd.rs:1238-1251` checks a child's pieces against earlier children, not against each other, so the assertion at `src/recipe_cmd.rs:2514` fires | `RecipePlanner.Planner.PlanBuildInner`: exactly when an accepted child maps onto itself; `RecipeWorlds.MintFolded` |
| What was minted from a plan can be verified | `src/recipe_cmd.rs:1692-1697` takes the literal spool and loses it when the sweep fails; `src/recipe_cmd.rs:2878-2890` then finds no spool | `RecipeVerify.Verifier.VerifyAll`, `RecipeGriefs.AfterALossFailsIff`, `RecipeGriefs.MintLost`; `RecipeShelves.MintLosingShelf` is such a container |
| A literal reads back as what was spooled | the same loss, when a later image's sweep starts a new spool: the old offset reads the new spool's bytes, nothing notices, and the document does not rebuild | `RecipeSpool.ReadsWrongIff` for a literal, `RecipeMint.Mint` for a document: it rebuilds exactly when every node it rests on re-encodes from what its literals read as now; `RecipeShelves.MintRefilledShelf` mints one that does not |
| Covers may span holes of the packed inode | `src/recipe_cmd.rs:1952` subtracts the pcluster's start from a position before it | `RecipeHashing.PanicsIffTrips` at a pcluster, `RecipeSweep.Sweep` and `RecipeImages.ScanIsTrue` for an image; `RecipeWorlds.MintCrossed` is one |
| The encoder is fed a run of the packed stream | `src/recipe_cmd.rs:1979-1984` appends the next pcluster's bytes whatever lies between | `RecipeSweep.WindowIsRunIff`; the node is true all the same where what was fed agrees with the stream under its covers (`RecipePCluster.PlannedIsTrue`); `RecipeWorlds.GappedPairIsWrong` gives one that is false |
| Compact indexes with lclusters of up to 14 bits are read | `src/erofs.rs:1305` accepts them with two-byte packs, whose entries have no room for the fields | `ErofsLayout.ReadableIff`, with `ErofsLayout.NarrowIsMisread` at 13 and at 14 bits |
| The walk stays within its cap | `src/walk.rs:94-96` leaves only the inner loop | `EvidenceWalk.CapIsPassedIff`, with `EvidenceWalk.CapIsPassed` |
| Rows found are the linear filter's | `src/parquet_index.rs:440-457` reads a span of records from the first match on, whatever stands in it | `ParquetRows.SpansAreLinearIff`, with `ParquetRows.NullIsReadForKey` |
| The pool goes on with any number of threads | one thread that reads may wait for budget nobody releases; callers ask for two or more (`src/recipe_cmd.rs:275-279`) | `PoolDrain.BlockedFlushHasWork` for two or more, `PoolStuck.OneThreadSticks` for one |
| Every read of a range store is served in the end | `src/range_store.rs:88-100` cannot fetch past the end of the file | `RangeStoring.MissMakesProgress`: served exactly if it lies inside the file |

## Left out

- RecipeMint.Mint: the coverage totals of the summary (`src/recipe_cmd.rs:440-520`), `verify_refs` (`src/recipe_cmd.rs:2722-2775`), microcode splices (`src/recipe_cmd.rs:744-890`) and JSON text are not modelled; the passes enter as a function that tells the truth. That a document rebuilds only if what it rests on re-encodes is said where no fetched or attested member shares a digest with anything built: a blob that does stands in for the node.
- RecipeMint.Check: the residue sidecar's own digest and its zstd decoding are left out, and blobs indexed under a digest are taken to have it.
- RecipeMint.NeverWrong: rests on no two byte strings sharing a digest the document names.
- RecipeImages.ScanImage: all sources are planned before either pass, where the code plans those of wholly packed files between the two; two files of an image are never the same member. Opening an image, its superblock and inodes, is left out: the maps are given, and tile their files.
- RecipeSweep.Sweep: encoders run one after another; which of several presets settles first is not modelled, nor is an image whose pool of encoders stops early.
- RecipePasses.PlanOwnFile: files are planned one after another.
- ErofsFile.ReadFile: full-layout indexes, and with them the `hole` and `partial` marks of heads, are left out; the distance the last entry of a pack looks ahead is a parameter, since no decoder here reads it.
- ErofsMap.BuildZPlan: says which lists fit, not which error another list gets.
- PoolWaiting.WaitingEnds: wake-ups and condition variables are not modelled; a step is taken whenever it can be.
- BloomFold.Fold: false-positive estimates are opaque.
- Clusters.ClusterEvidence: groups come out of a hash map in an order of its own.
- RangeStoring.Drive: the page cache's eviction and its fetch block are parameters.
- FatChains.Fat.Chain: opening a file system, directories and names are left out.
- MemberReplay.ReplayAndCompact: rows are values; the tables they are stored in are left out.
- The cpio, tar, zip, ar and squashfs walkers, the iso parser and archive extraction: third-party formats, uninterpreted here.
- Seeking past either end of a view's 64-bit range, and arithmetic overflow outside the sweep.
- Jigdo output, rendering, progress, command-line handling, downloads, SQLite and the network.
