# Fiji plugins: the TrackMate LAP tracker, the spot segmenter's state, and the SIF header arithmetic

This project models three pieces of the Fiji image-analysis plugins in Dafny and proves
properties of them.

**The LAP tracker** (`LAPTracker.java`, class `LAPTracking.LAPTracker`). It is a particle
tracker after Jaqaman et al. 2008, and its input is a frame-indexed table of spots.
- The constructor builds an undirected simple graph with every spot as a vertex and no
  edges.
- `CheckInput` accepts a table that has at least one spot.
- Step 1 proceeds in three stages:
  - it asks an external creator for one cost matrix per pair of consecutive present frames,
    keyed by the earlier frame;
  - it asks an external assignment solver to solve each matrix, and adds an edge for every
    solution pair in the upper-left "link" block;
  - it splits the graph into connected components. Each component becomes a track segment
    ordered by time, where spots of equal time collapse to one.
- Step 2 checks its preconditions and solves a second assignment problem. It then calls
  `compileFinalTracks`, which returns at once, so the graph does not change.

The cost-matrix creators and the Hungarian solver are function-typed parameters. The
solver's contract is the predicate `IsAssignment`: indices lie within the matrix, and each
row and each column is used at most once. Every tracker method that runs the solver requires
`AssignmentSolver`: the solver keeps that contract on every matrix. From this the model
proves two things. In step 1, a spot gains at most one link to the next frame and at most one
link from the previous frame (`OneToOneLinks`). In step 2, the solutions are an assignment of
the segment matrix.

The graph is a vertex set plus a set of two-element sets of spots. The spot table, the settings and the vertex set are constants of the class, because only the constructor sets them. The segments are
stated per component: the ghost field `components` records the component each segment
was drawn from.

**The segmenter base class** (`AbstractSpotSegmenter.java`, class
`SpotSegmentation.AbstractSpotSegmenter`). Its fields are an image (reduced to its
dimension count), a radius, a calibration, a result list, an intermediate image and
settings. It has setters and getters. It also has the ordered validator `CheckInput`, whose
first failing check decides the error message; the function `InputError` states the same
order as a specification.

**The SIF opener's header arithmetic** (`Open_SIFkai_.java`, module `SifHeader`):
- the header loop, whose bound `27 + spool + ver` grows while it reads. `ReadHeader`
  follows the loop over the header lines, and `HeaderOf` is its specification;
- the offset scan, which lands just past the N-th newline byte (`ScanOffset` against
  `OffsetAfter`);
- the frame width and height from the region corners and the binning (`FrameExtent`);
- the clamp of the start and end frames (`ClampFrames` against `ClampOf`);
- the byte offset of each frame (`FrameOffset`, `SixteenBitOffsets`).

Java `int` arithmetic is written out: `JavaInt` gives wrap-around, and division and
remainder that truncate toward zero. So is `String.split(" ")` (`JavaSplit`), and so are
`Integer.parseInt` and `Long.parseLong` (`Decimal`). In the header reader, a missing line,
a missing token and a failed `parseInt` or `parseLong` are each a `None`. Some failures are
not covered this way, and "Left out" below lists them: the `parseDouble` calls on line 2,
the scan that never ends at end of file, and the tracker's throws on an empty table.

Paths in the table below:
- `LAPTracker.java` is `src-plugins/TrackMate_/fiji/plugin/trackmate/tracking/LAPTracker.java`;
- `AbstractSpotSegmenter.java` is `src-plugins/TrackMate_/fiji/plugin/trackmate/segmentation/AbstractSpotSegmenter.java`;
- `Open_SIFkai_.java` is `src-plugins/IO_/src/main/java/io/Open_SIFkai_.java`.

The class documentation names step 2 "Gap closing, merging and splitting"
(`LAPTracker.java:43`). The comment on `compileFinalTracks` says it links the segments by
those three events (`LAPTracker.java:620-629`). The method returns before doing any of it
(`LAPTracker.java:631`), and the model follows the code.
`CompileFinalTracks` leaves the graph and the segments unchanged. `FinalLinkOf` states how
the unreachable rest of the method would classify a solution pair.

## Model

| member | source | states |
|---|---|---|
| LAPTracking.LAPTracker.constructor | src-plugins/TrackMate_/fiji/plugin/trackmate/tracking/LAPTracker.java:210-218 | the graph's vertices are exactly the spots of all frames and it has no edges; the tracker is unchecked, without error, segments or step-2 matrix |
| LAPTracking.LAPTracker.CheckInput | src-plugins/TrackMate_/fiji/plugin/trackmate/tracking/LAPTracker.java:296-324 | succeeds exactly when some frame holds a spot, and only then sets the checked flag; an empty table or one with only empty frames sets "LAPTracker: The spot list is empty." and leaves the flag as it was |
| LAPTracking.LAPTracker.Process | src-plugins/TrackMate_/fiji/plugin/trackmate/tracking/LAPTracker.java:337-381 | without a prior successful check it fails with the "checkInput() must be executed before process()." message and changes nothing else; otherwise it runs step 1 and then step 2, and it succeeds exactly when every frame pair gets a matrix and the segment creator succeeds; on success the step-1 links are one-to-one between consecutive frames, and the step-2 matrix and both middle-point lists are the segment creator's; on every failure the step-2 matrix and the middle-point lists keep their old values; it states the linking matrices, edges, segments and error message in each case |
| LAPTracking.LAPTracker.StepOne | src-plugins/TrackMate_/fiji/plugin/trackmate/tracking/LAPTracker.java:346-354 | the matrices are whatever the creator produced before its first failure; on failure the graph and segments are untouched; on success the edges gained are exactly the step-1 edges, one-to-one between consecutive frames, and the segments are a non-empty segmentation of the graph |
| LAPTracking.LAPTracker.StepTwo | src-plugins/TrackMate_/fiji/plugin/trackmate/tracking/LAPTracker.java:357-365 | succeeds exactly when the segment creator succeeds (the step-2 checks then always pass); on success the step-2 matrix and both middle-point lists are the creator's and the error message is unchanged; on failure the creator's message, prefixed, becomes the error, and the step-2 matrix and the middle-point lists keep their old values |
| LAPTracking.LAPTracker.CreateLinkingCostMatrices | src-plugins/TrackMate_/fiji/plugin/trackmate/tracking/LAPTracker.java:390-418 | resets the matrices and then stores the creator's matrix for each consecutive pair in ascending order, keyed by the earlier frame; it succeeds exactly when every pair gets one, and stops at the first failure |
| LAPTracking.CostsOfPairsKeyed | src-plugins/TrackMate_/fiji/plugin/trackmate/tracking/LAPTracker.java:396-417 | with ascending keys the first n pairs give exactly n matrices, the matrix of pair k sitting at the key of frame k whatever the gap between keys |
| LAPTracking.CreatedCostsCover | src-plugins/TrackMate_/fiji/plugin/trackmate/tracking/LAPTracker.java:396-417 | when every pair got a matrix, every frame but the last has one |
| LAPTracking.CreatedPairs | src-plugins/TrackMate_/fiji/plugin/trackmate/tracking/LAPTracker.java:400-410 | counts the pairs created before the first failure: all earlier pairs succeeded and the next one, if any, failed |
| LAPTracking.CreatedPairsStop | src-plugins/TrackMate_/fiji/plugin/trackmate/tracking/LAPTracker.java:400-410 | the count is the first pair that fails, or the last pair |
| LAPTracking.EarlierKeysBelow | src-plugins/TrackMate_/fiji/plugin/trackmate/tracking/LAPTracker.java:397-402 | keys of earlier frames are below the key of any later frame, so a new key is never overwritten |
| LAPTracking.EarlierKeysContain | src-plugins/TrackMate_/fiji/plugin/trackmate/tracking/LAPTracker.java:414 | every earlier frame's key is among the keys put |
| LAPTracking.LAPTracker.LinkObjectsToTrackSegments | src-plugins/TrackMate_/fiji/plugin/trackmate/tracking/LAPTracker.java:444-459 | without linking matrices it fails with "The linking cost matrix is null." and leaves graph and segments unchanged; otherwise it adds exactly the step-1 edges, one-to-one between consecutive frames, and the segments become a segmentation of the new graph |
| LAPTracking.LAPTracker.SolveLAPForTrackSegments | src-plugins/TrackMate_/fiji/plugin/trackmate/tracking/LAPTracker.java:504-542 | the edges gained are exactly those of every frame pair in key order; the graph stays simple over the same vertices; with an assignment solver, each spot gains at most one link to the next frame and at most one link from the previous frame |
| LAPTracking.LAPTracker.LinkFramePairs | src-plugins/TrackMate_/fiji/plugin/trackmate/tracking/LAPTracker.java:508-541 | each consecutive pair is solved from the matrix at the earlier key and its links added |
| LAPTracking.LAPTracker.LinkFramePair | src-plugins/TrackMate_/fiji/plugin/trackmate/tracking/LAPTracker.java:526-537 | the edges gained are exactly the link-block solution pairs of one frame pair |
| LAPTracking.PairEdgesExactly | src-plugins/TrackMate_/fiji/plugin/trackmate/tracking/LAPTracker.java:526-536 | an edge is added for a frame pair if and only if some solution pair (i0, i1) with i0 < size of t0 and i1 < size of t1 names its two spots; every other pair adds nothing |
| LAPTracking.StepOneEdgesConsecutive | src-plugins/TrackMate_/fiji/plugin/trackmate/tracking/LAPTracker.java:508-541 | every step-1 edge joins a spot of one present frame with a spot of the next present frame |
| LAPTracking.StepOneEdgesSimple | src-plugins/TrackMate_/fiji/plugin/trackmate/tracking/LAPTracker.java:531-535 | step-1 edges are edges of the graph: two distinct spots of the table |
| LAPTracking.StepOneEdgesOneToOne | src-plugins/TrackMate_/fiji/plugin/trackmate/tracking/LAPTracker.java:508-541 | with an assignment solver, over all frame pairs of a well-formed table, a spot is linked to at most one spot of the next frame and to at most one spot of the previous frame |
| LAPTracking.StepOneEdgePair | src-plugins/TrackMate_/fiji/plugin/trackmate/tracking/LAPTracker.java:511-540 | every step-1 edge was added while linking one of the frame pairs |
| LAPTracking.EdgeOfPair | src-plugins/TrackMate_/fiji/plugin/trackmate/tracking/LAPTracker.java:526-536 | a step-1 edge between a spot of frame k and a spot of frame k+1 was added while linking that very pair |
| LAPTracking.SamePair | src-plugins/TrackMate_/fiji/plugin/trackmate/tracking/LAPTracker.java:526-536 | with distinct spots, an edge between two consecutive frames belongs to one frame pair only |
| LAPTracking.PairEdgeEnds | src-plugins/TrackMate_/fiji/plugin/trackmate/tracking/LAPTracker.java:531-535 | an edge of one frame pair joins a spot of the earlier frame and a spot of the later frame |
| LAPTracking.PairEdgesOneToOne | src-plugins/TrackMate_/fiji/plugin/trackmate/tracking/LAPTracker.java:520-536 | when the solver returns an assignment, each spot of the earlier frame is linked to at most one spot of the later frame and vice versa |
| LAPTracking.RowUsedOnce | src-plugins/TrackMate_/fiji/plugin/trackmate/tracking/LAPTracker.java:521 | in an assignment two solution pairs on one row are the same pair |
| LAPTracking.ColumnUsedOnce | src-plugins/TrackMate_/fiji/plugin/trackmate/tracking/LAPTracker.java:521 | in an assignment two solution pairs on one column are the same pair |
| LAPTracking.LAPTracker.CompileTrackSegments | src-plugins/TrackMate_/fiji/plugin/trackmate/tracking/LAPTracker.java:568-615 | the segments are a segmentation of the graph: one per connected component, components disjoint and covering every spot, each segment time-sorted; edges and error unchanged |
| LAPTracking.CollectSegment | src-plugins/TrackMate_/fiji/plugin/trackmate/tracking/LAPTracker.java:595-601 | the spots a walk visited become a segment in strictly ascending time holding one spot per time present, and they all leave the pool |
| Graph.DepthFirstComponent | src-plugins/TrackMate_/fiji/plugin/trackmate/tracking/LAPTracker.java:594-601 | the depth-first walk from the source meets each spot once, the source first, and meets exactly the source's connected component |
| Graph.PushUnseen | src-plugins/TrackMate_/fiji/plugin/trackmate/tracking/LAPTracker.java:594-598 | one expansion step visits and stacks exactly the neighbours not yet visited |
| Graph.ExpandKeepsInvariants | src-plugins/TrackMate_/fiji/plugin/trackmate/tracking/LAPTracker.java:594-598 | an expansion keeps everything visited reachable from the source and every visited spot either stacked or fully expanded |
| Graph.SearchedIsComponent | src-plugins/TrackMate_/fiji/plugin/trackmate/tracking/LAPTracker.java:594-598 | once the stack is empty the visited set is a connected component |
| Graph.SimpleGraphUnion | src-plugins/TrackMate_/fiji/plugin/trackmate/tracking/LAPTracker.java:535 | adding edges among the vertices keeps the graph simple |
| Graph.ReachableRefl | src-plugins/TrackMate_/fiji/plugin/trackmate/tracking/LAPTracker.java:594 | every spot reaches itself |
| Graph.ReachableStep | src-plugins/TrackMate_/fiji/plugin/trackmate/tracking/LAPTracker.java:594 | a walk extends along an edge |
| Graph.ReachableSym | src-plugins/TrackMate_/fiji/plugin/trackmate/tracking/LAPTracker.java:184 | the graph is undirected, so reachability is symmetric |
| Graph.ReachableTrans | src-plugins/TrackMate_/fiji/plugin/trackmate/tracking/LAPTracker.java:594 | walks compose |
| Graph.ClosedPath | src-plugins/TrackMate_/fiji/plugin/trackmate/tracking/LAPTracker.java:594 | a walk starting in a closed set stays in it |
| Graph.ClosedReach | src-plugins/TrackMate_/fiji/plugin/trackmate/tracking/LAPTracker.java:594 | nothing outside a closed set is reachable from inside |
| TrackSegments.SpotInOneComponent | src-plugins/TrackMate_/fiji/plugin/trackmate/tracking/LAPTracker.java:584-604 | every spot lies in exactly one component |
| TrackSegments.SegmentsNotConnected | src-plugins/TrackMate_/fiji/plugin/trackmate/tracking/LAPTracker.java:592-604 | spots of two different segments are not connected in the graph |
| TrackSegments.ComponentsDisjoint | src-plugins/TrackMate_/fiji/plugin/trackmate/tracking/LAPTracker.java:592-604 | two different components share no spot |
| TrackSegments.SegmentationNonEmpty | src-plugins/TrackMate_/fiji/plugin/trackmate/tracking/LAPTracker.java:592-604 | a table with a spot gives at least one segment, and no segment is empty |
| TrackSegments.SegmentNonEmpty | src-plugins/TrackMate_/fiji/plugin/trackmate/tracking/LAPTracker.java:595-599 | the segment of a non-empty component is not empty |
| TrackSegments.SegmentKeepsAll | src-plugins/TrackMate_/fiji/plugin/trackmate/tracking/LAPTracker.java:572-583 | when no two spots of a component share a time, its segment holds every spot of it |
| TrackSegments.AddComponent | src-plugins/TrackMate_/fiji/plugin/trackmate/tracking/LAPTracker.java:592-603 | adding the segment of the component of a pooled spot keeps the partial segmentation, the pool losing that component |
| TrackSegments.FreshComponentDisjoint | src-plugins/TrackMate_/fiji/plugin/trackmate/tracking/LAPTracker.java:592-594 | the component of a spot still in the pool shares no spot with the earlier components |
| TrackSegments.UnionMembership | src-plugins/TrackMate_/fiji/plugin/trackmate/tracking/LAPTracker.java:600 | a spot is in the union of the components walked so far exactly when one of them holds it, which is how the pool shrinks |
| TimeSortedSet.InsertElems | src-plugins/TrackMate_/fiji/plugin/trackmate/tracking/LAPTracker.java:572-583 | adding a spot whose time is already present leaves the set unchanged; any other spot is added |
| TimeSortedSet.InsertSorted | src-plugins/TrackMate_/fiji/plugin/trackmate/tracking/LAPTracker.java:595-599 | the set stays in strictly ascending time |
| TimeSortedSet.InsertTimes | src-plugins/TrackMate_/fiji/plugin/trackmate/tracking/LAPTracker.java:599 | adding a spot adds exactly its time, and no spot but it |
| TimeSortedSet.HeadEarliest | src-plugins/TrackMate_/fiji/plugin/trackmate/tracking/LAPTracker.java:572-583 | the first spot of a sorted segment is earlier than every other |
| TimeSortedSet.ConsSorted | src-plugins/TrackMate_/fiji/plugin/trackmate/tracking/LAPTracker.java:572-583 | a spot earlier than all of a sorted segment can go in front |
| LAPTracking.LAPTracker.CreateTrackSegmentCostMatrix | src-plugins/TrackMate_/fiji/plugin/trackmate/tracking/LAPTracker.java:427-437 | on the creator's failure its message, prefixed, becomes the error and nothing else changes; on success the matrix and both middle-point lists are stored |
| LAPTracking.LAPTracker.LinkTrackSegmentsToFinalTracks | src-plugins/TrackMate_/fiji/plugin/trackmate/tracking/LAPTracker.java:468-495 | fails with "There are no track segments to link." when there are no segments or none at all, and otherwise with "The segment cost matrix (step 2) does not exists." when there is no step-2 matrix; it succeeds exactly when both exist, and the graph is unchanged in every case |
| LAPTracking.LAPTracker.SolveLAPForFinalTracks | src-plugins/TrackMate_/fiji/plugin/trackmate/tracking/LAPTracker.java:552-558 | the solutions are the solver's answer for the step-2 matrix, and with an assignment solver they are an assignment of it: indices within the matrix, each row and each column used at most once |
| LAPTracking.LAPTracker.CompileFinalTracks | src-plugins/TrackMate_/fiji/plugin/trackmate/tracking/LAPTracker.java:630-631 | returns at once: edges and segments unchanged |
| LAPTracking.FinalLinkOf | src-plugins/TrackMate_/fiji/plugin/trackmate/tracking/LAPTracker.java:636-698 | the unreachable classification: segment row against segment column is a gap closing, against a merging column a merge with that middle point, a splitting row against a segment column a split, anything else no link |
| LAPTracking.GapClosingJoinsEnds | src-plugins/TrackMate_/fiji/plugin/trackmate/tracking/LAPTracker.java:644-654 | a gap closing would join the latest spot of one segment to the earliest spot of the other |
| LAPTracking.LAPTracker.SetLinkingCosts | src-plugins/TrackMate_/fiji/plugin/trackmate/tracking/LAPTracker.java:246-248 | stores the matrices given |
| LAPTracking.LAPTracker.SetSegmentCosts | src-plugins/TrackMate_/fiji/plugin/trackmate/tracking/LAPTracker.java:264-266 | stores the matrix given |
| Spots.AllSpotsMembership | src-plugins/TrackMate_/fiji/plugin/trackmate/tracking/LAPTracker.java:215-217 | a spot is a vertex exactly when some frame lists it |
| Spots.HasSpotNonEmpty | src-plugins/TrackMate_/fiji/plugin/trackmate/tracking/LAPTracker.java:310-320 | a table with a non-empty frame has a non-empty vertex set |
| SpotSegmentation.AbstractSpotSegmenter.CheckInput | src-plugins/TrackMate_/fiji/plugin/trackmate/segmentation/AbstractSpotSegmenter.java:59-85 | succeeds exactly when there is an image of 2 or 3 dimensions, a positive radius and a calibration of positive numbers, and then leaves the error message alone; otherwise the message of the first failing check, after the base message, becomes the error |
| SpotSegmentation.InputError | src-plugins/TrackMate_/fiji/plugin/trackmate/segmentation/AbstractSpotSegmenter.java:59-85 | there is no message exactly when every check passes; a missing image gives "Image is null." |
| SpotSegmentation.DimensionMessage | src-plugins/TrackMate_/fiji/plugin/trackmate/segmentation/AbstractSpotSegmenter.java:66-69 | every dimension count but 2 and 3 fails the image check. The message is "Image must be 2D or 3D, got ", then the count in decimal, then "D.", and those digits read back as the count |
| SpotSegmentation.EarlierCheckWins | src-plugins/TrackMate_/fiji/plugin/trackmate/segmentation/AbstractSpotSegmenter.java:70-73 | once the radius check fails, its message stands whatever the calibration holds |
| SpotSegmentation.AbstractSpotSegmenter.constructor | src-plugins/TrackMate_/fiji/plugin/trackmate/segmentation/AbstractSpotSegmenter.java:17-54 | the field defaults: empty base message, no image, radius 0, calibration {1, 1, 1}, no spots, no intermediate image, no error, no settings |
| SpotSegmentation.AbstractSpotSegmenter.SetImage | src-plugins/TrackMate_/fiji/plugin/trackmate/segmentation/AbstractSpotSegmenter.java:108-113 | sets the image, empties the spot list and clears the intermediate image; no other field changes |
| SpotSegmentation.AbstractSpotSegmenter.SetSettings | src-plugins/TrackMate_/fiji/plugin/trackmate/segmentation/AbstractSpotSegmenter.java:88-91 | stores the settings and nothing else |
| SpotSegmentation.AbstractSpotSegmenter.GetSettings | src-plugins/TrackMate_/fiji/plugin/trackmate/segmentation/AbstractSpotSegmenter.java:93-96 | gives back the stored settings |
| SpotSegmentation.AbstractSpotSegmenter.GetIntermediateImage | src-plugins/TrackMate_/fiji/plugin/trackmate/segmentation/AbstractSpotSegmenter.java:98-101 | gives back the intermediate image |
| SpotSegmentation.AbstractSpotSegmenter.GetResult | src-plugins/TrackMate_/fiji/plugin/trackmate/segmentation/AbstractSpotSegmenter.java:103-106 | gives back the spot list |
| SpotSegmentation.AbstractSpotSegmenter.SetCalibration | src-plugins/TrackMate_/fiji/plugin/trackmate/segmentation/AbstractSpotSegmenter.java:115-118 | stores the calibration and nothing else |
| SpotSegmentation.AbstractSpotSegmenter.SetEstimatedRadius | src-plugins/TrackMate_/fiji/plugin/trackmate/segmentation/AbstractSpotSegmenter.java:120-123 | stores the radius and nothing else |
| SpotSegmentation.AbstractSpotSegmenter.GetErrorMessage | src-plugins/TrackMate_/fiji/plugin/trackmate/segmentation/AbstractSpotSegmenter.java:125-128 | gives back the error message |
| SifHeader.ReadHeader | src-plugins/IO_/src/main/java/io/Open_SIFkai_.java:46-112 | the header loop, with its bound growing as ver and spool are set, reads exactly the header of the specification function: version, ver, spool, stack size and region, or None wherever reading throws |
| SifHeader.HeaderShape | src-plugins/IO_/src/main/java/io/Open_SIFkai_.java:50-111 | in a header that reads: ver is 4 exactly for versions 4.13 and 4.15 and 0 otherwise; spool is 1 exactly when ver is 0 and line 7 starts with "Spooled"; the stack size is token 6 of line 24 + spool + ver, an int; the file has more than 25 + spool + ver lines |
| SifHeader.HeaderOfSome | src-plugins/IO_/src/main/java/io/Open_SIFkai_.java:50-111 | the header is made of the four lines it reads, at indices 2, 7, 24 + spool + ver and 25 + spool + ver |
| SifHeader.ReadVersionLine | src-plugins/IO_/src/main/java/io/Open_SIFkai_.java:52-76 | line 2 gives the version joined from tokens 54 to 57 once it has 58 tokens and a long at token 4, and the ver it implies |
| SifHeader.VerOf | src-plugins/IO_/src/main/java/io/Open_SIFkai_.java:75-76 | ver is 0 or 4 |
| SifHeader.ReadSpoolLine | src-plugins/IO_/src/main/java/io/Open_SIFkai_.java:92-97 | line 7 sets spool only for ver 0 and a first token "Spooled"; for ver 0 a line without tokens throws |
| SifHeader.ReadStackSizeLine | src-plugins/IO_/src/main/java/io/Open_SIFkai_.java:98-102 | the stack size is the int at token 6 |
| SifHeader.ReadRoiLine | src-plugins/IO_/src/main/java/io/Open_SIFkai_.java:103-111 | the region is the six ints at tokens 1 to 6 |
| SifHeader.Tokens | src-plugins/IO_/src/main/java/io/Open_SIFkai_.java:53 | one token list per header line |
| SifHeader.TokensAt | src-plugins/IO_/src/main/java/io/Open_SIFkai_.java:93 | the token list of line i is that line split at single spaces |
| SifHeader.OffsetLineCount415 | src-plugins/IO_/src/main/java/io/Open_SIFkai_.java:116-117 | for a version-4.15 header that reads, the header loop's ver is 4, while the scan counts 26 + stacksize + (ver + 1) + spool newlines: one line more than the header loop read |
| SifHeader.ScanOffset | src-plugins/IO_/src/main/java/io/Open_SIFkai_.java:114-122 | the nested byte loop ends just past the (26 + stacksize + ver + spool)-th newline byte (10); it ends at 0 for a count of 0 or less, and with None when the file holds fewer newlines |
| SifHeader.OffsetAfterSome | src-plugins/IO_/src/main/java/io/Open_SIFkai_.java:117-122 | the offset found lies just past a newline and has exactly the asked number of newlines before it |
| SifHeader.OffsetAfterNone | src-plugins/IO_/src/main/java/io/Open_SIFkai_.java:117-122 | there is no offset exactly when the file holds fewer newlines than asked |
| SifHeader.NextNewline | src-plugins/IO_/src/main/java/io/Open_SIFkai_.java:118-120 | the inner loop stops at the first newline at or after its start, and finds none only when there is none before the end |
| SifHeader.NextNewlineCount | src-plugins/IO_/src/main/java/io/Open_SIFkai_.java:118-121 | one inner loop passes exactly one newline |
| SifHeader.NewlinesSplit | src-plugins/IO_/src/main/java/io/Open_SIFkai_.java:117-122 | newline counts add up over adjacent ranges |
| SifHeader.NoNewlines | src-plugins/IO_/src/main/java/io/Open_SIFkai_.java:118-120 | a range without the newline byte counts none |
| SifHeader.FrameExtentFloor | src-plugins/IO_/src/main/java/io/Open_SIFkai_.java:126-131 | for a positive bin and a span that fits in an int, width (and height) times the bin is at most the span, and one more times the bin exceeds it |
| SifHeader.FrameExtentIsQuotient | src-plugins/IO_/src/main/java/io/Open_SIFkai_.java:126-131 | taking the remainder off before dividing changes nothing: the extent is Java's quotient of the span by the bin |
| SifHeader.ExactPartInRange | src-plugins/IO_/src/main/java/io/Open_SIFkai_.java:127-128 | the span less its remainder is an int |
| SifHeader.TruncDivExact | src-plugins/IO_/src/main/java/io/Open_SIFkai_.java:128 | dividing an exact multiple gives the multiplier back |
| SifHeader.ClampFrames | src-plugins/IO_/src/main/java/io/Open_SIFkai_.java:149-155 | the range check computes the clamp function |
| SifHeader.ClampBounds | src-plugins/IO_/src/main/java/io/Open_SIFkai_.java:149-155 | after the check the zero-based start is at least 0 and the end at most the stack size |
| SifHeader.ClampKeepsValidRange | src-plugins/IO_/src/main/java/io/Open_SIFkai_.java:149-170 | for 1 <= start <= end <= stack size only the start is made zero-based, and end - start + 1 frames are requested |
| SifHeader.ClampResetsStart | src-plugins/IO_/src/main/java/io/Open_SIFkai_.java:149-154 | a start past the end or past the stack is reset to the end before the decrement |
| SifHeader.ClampCanInvert | src-plugins/IO_/src/main/java/io/Open_SIFkai_.java:149-170 | start 20, end 30 in a stack of 10 gives start 29 and end 10, so -19 frames are requested; an end of -5 is not raised |
| SifHeader.ClampRange | src-plugins/IO_/src/main/java/io/Open_SIFkai_.java:149-155 | the corrected check: 0 <= start <= end, end within a stack of non-negative size, and a valid range only made zero-based |
| SifHeader.ClampRangeAgrees | src-plugins/IO_/src/main/java/io/Open_SIFkai_.java:149-155 | on every range inside the stack the corrected check and the one written agree |
| SifHeader.SixteenBitOffsets | src-plugins/IO_/src/main/java/io/Open_SIFkai_.java:179-180 | one offset per frame from the start frame on, in order, as many as end - start when positive; each is the int-arithmetic formula, that is, the true offset wrapped into an int |
| SifHeader.FrameOffsetWraps | src-plugins/IO_/src/main/java/io/Open_SIFkai_.java:171 | the offset formula in int arithmetic is offset + k * height * width * 4 wrapped to 32 bits |
| SifHeader.FrameOffsetAgrees | src-plugins/IO_/src/main/java/io/Open_SIFkai_.java:171 | the two agree whenever the true offset fits in an int |
| SifHeader.FrameOffsetOverflows | src-plugins/IO_/src/main/java/io/Open_SIFkai_.java:171 | frame 2048 of 512 by 512 pixels starts 2^31 bytes in, which the int formula turns into a negative offset |
| SifHeader.ByteOffsetStride | src-plugins/IO_/src/main/java/io/Open_SIFkai_.java:180 | consecutive frames start one frame size (height * width * 4 bytes) apart, each after the one before |
| JavaSplit.SplitTokens | src-plugins/IO_/src/main/java/io/Open_SIFkai_.java:99 | split(" ") gives the pieces between single spaces with only trailing empty ones dropped, the whole line when it has no space, and no token holds a space |
| JavaSplit.OnlySpaces | src-plugins/IO_/src/main/java/io/Open_SIFkai_.java:93-94 | a line of spaces only splits into no token, so reading its first token throws |
| JavaSplit.PiecesJoin | src-plugins/IO_/src/main/java/io/Open_SIFkai_.java:53 | joining the pieces with single spaces gives the line back |
| JavaSplit.PiecesHaveNoSpace | src-plugins/IO_/src/main/java/io/Open_SIFkai_.java:53 | no piece holds a space |
| JavaSplit.Pieces | src-plugins/IO_/src/main/java/io/Open_SIFkai_.java:53 | there is always at least one piece |
| JavaSplit.DropTrailingEmpty | src-plugins/IO_/src/main/java/io/Open_SIFkai_.java:53 | only a run of empty pieces at the end is dropped, and what is left does not end with an empty piece |
| JavaSplit.AllEmptyPieces | src-plugins/IO_/src/main/java/io/Open_SIFkai_.java:93 | a line of spaces has only empty pieces |
| Decimal.IntToStringRoundTrip | src-plugins/IO_/src/main/java/io/Open_SIFkai_.java:100 | Integer.parseInt reads back every int as Java writes it |
| Decimal.ParseAccepts | src-plugins/IO_/src/main/java/io/Open_SIFkai_.java:100 | text that parses is an optional sign followed by at least one digit and nothing else |
| Decimal.DigitsOfValue | src-plugins/IO_/src/main/java/io/Open_SIFkai_.java:100 | the digit reader accepts exactly a non-empty run of digits, with its decimal value |
| Decimal.ParseBounded | src-plugins/IO_/src/main/java/io/Open_SIFkai_.java:100 | a parsed value lies within the type's bounds; out-of-range text is a format error |
| Decimal.ParseInt | src-plugins/IO_/src/main/java/io/Open_SIFkai_.java:105-110 | a parsed value is an int |
| Decimal.ParseLong | src-plugins/IO_/src/main/java/io/Open_SIFkai_.java:55 | a parsed value is a long |
| Decimal.NatToString | src-plugins/TrackMate_/fiji/plugin/trackmate/segmentation/AbstractSpotSegmenter.java:67 | the decimal digits of a number are non-empty and have no leading zero |
| Decimal.NatToStringValue | src-plugins/TrackMate_/fiji/plugin/trackmate/segmentation/AbstractSpotSegmenter.java:67 | the digits written for a number have that number as their value |
| JavaInt.Wrap | src-plugins/IO_/src/main/java/io/Open_SIFkai_.java:126 | int wrap-around: an int congruent to the exact result modulo 2^32, the result itself when it fits |
| JavaInt.TruncDiv | src-plugins/IO_/src/main/java/io/Open_SIFkai_.java:128 | Java's division truncates toward zero: the quotient's magnitude is the floor of the magnitudes, and its sign is the product of the operands' signs |
| JavaInt.TruncRem | src-plugins/IO_/src/main/java/io/Open_SIFkai_.java:127 | Java's remainder completes the quotient, is smaller than the divisor in magnitude, and takes the dividend's sign |
| JavaInt.WrapAdd | src-plugins/IO_/src/main/java/io/Open_SIFkai_.java:171 | wrapping a partial sum does not change the wrapped total |
| JavaInt.WrapMul | src-plugins/IO_/src/main/java/io/Open_SIFkai_.java:171 | wrapping a partial product does not change the wrapped total |
| JavaInt.WrapCongruent | src-plugins/IO_/src/main/java/io/Open_SIFkai_.java:171 | results that differ by a multiple of 2^32 wrap to the same int |

Specification functions and the rows that state them:
- `SifHeader.HeaderOf`, `VersionLine`, `SpoolLine`, `StackSizeLine` and `RoiLine` (`Open_SIFkai_.java:50-111`): `ReadHeader`, `HeaderShape`, `HeaderOfSome`, `ReadVersionLine`, `ReadSpoolLine`, `ReadStackSizeLine` and `ReadRoiLine`.
- `SifHeader.OffsetLineCount` (`Open_SIFkai_.java:116-117`): `OffsetLineCount415`. `OffsetAfter` (`Open_SIFkai_.java:117-122`): `ScanOffset`.
- `SifHeader.FrameExtent` (`Open_SIFkai_.java:126-131`): `FrameExtentIsQuotient`, `FrameExtentFloor`.
- `SifHeader.ClampOf` (`Open_SIFkai_.java:149-155`): `ClampFrames`, `ClampBounds`, `ClampKeepsValidRange`, `ClampResetsStart`, `ClampCanInvert`, `ClampRangeAgrees`.
- `SifHeader.FrameCount` (`Open_SIFkai_.java:170`): `ClampKeepsValidRange`, `ClampCanInvert`, `SixteenBitOffsets`.
- `SifHeader.FrameOffset` (`Open_SIFkai_.java:171`): `FrameOffsetWraps`, `FrameOffsetAgrees`, `FrameOffsetOverflows`, `SixteenBitOffsets`.
- `JavaSplit.Split` (`Open_SIFkai_.java:53`): `SplitTokens`, `OnlySpaces`.
- `Decimal.IntToString` (`AbstractSpotSegmenter.java:67`): `IntToStringRoundTrip`, `DimensionMessage`.
- `LAPTracking.QuadrantLink` and `PairEdges` (`LAPTracker.java:526-536`): `PairEdgesExactly`, `PairEdgesOneToOne`, `PairEdgeEnds`.
- `LAPTracking.StepOneEdges` (`LAPTracker.java:508-541`): `StepOneEdgesConsecutive`, `StepOneEdgesSimple`, `StepOneEdgesOneToOne`, `StepOneEdgePair`, and `LinkFramePairs`, which adds exactly these edges.
- `LAPTracking.CostsOfPairs` (`LAPTracker.java:396-417`): `CostsOfPairsKeyed`, `CreatedCostsCover`, and `CreateLinkingCostMatrices`, which stores exactly these matrices.
- `TimeSortedSet.Insert` (`LAPTracker.java:599`): `InsertElems`, `InsertSorted`, `InsertTimes`.

## Left out

- Loggers, `System.out` and `IJ` messages, and `echoMatrix`/`echoSolutions`: they only print.
- LAPTracking.LAPTracker.Process: the Jama loop at the end of `process()` (`LAPTracker.java:370-377`) overwrites in place every `Double.MAX_VALUE` entry of `segmentCosts` with NaN. It also throws on an empty or ragged step-2 matrix. Real-valued costs have neither MAX_VALUE nor NaN, so this is not modelled, and `Process` states the step-2 matrix as the creator returned it.
- The creators' and the Hungarian solver's internals and their floating-point costs are not modelled. They are function-typed parameters. The tracker methods that solve require `AssignmentSolver`: the solver returns an assignment (`IsAssignment`) for every matrix, as the Hungarian algorithm does.
- The traversal order of jgrapht's depth-first iterator and of the spot pool is not modelled: the source is picked by `:|` and the pool is a set. The segments are specified as a partition, not in any order.
- The float `Spot.diffTo` time comparator is replaced by an integer frame time, so spots of equal time collapse exactly.
- The tracker's getters (`getLinkingCosts`, `getSegmentCosts`, `getTrackGraph`, `getTrackSegments`, `getErrorMessage`) are not methods: callers read the fields directly.
- The three shorter constructors are not modelled separately. They call the main constructor with no linking matrices and/or the default settings (`DEFAULT_SETTINGS`).
- LAPTracking.LAPTracker.constructor: requires a table whose keys ascend and whose spots are distinct objects. A Java `TreeMap` always has ascending keys. A spot listed in two frames could be linked to itself, and jgrapht's simple graph then throws. A spot listed twice, even within one frame, also enters the `spotPool` list twice (`LAPTracker.java:586`). `spotPool.remove` removes one copy only (`LAPTracker.java:600`), so Java then emits a duplicate segment. Neither case is modelled.
- LAPTracking.LAPTracker.CheckInput: the null-table branch is not modelled. The constructor already dereferences the table, so that branch cannot be reached after construction.
- LAPTracking.LAPTracker.CreateLinkingCostMatrices: requires a non-empty table. Java's `frameIterator.next()` throws on an empty one, and `process()` only calls it after a successful check.
- LAPTracking.LAPTracker.SolveLAPForTrackSegments: requires a table with at least one frame. On a table without frames, `frameIterator.next()` throws `NoSuchElementException` (`LAPTracker.java:509`), which is not modelled. The method is public, so a caller can reach this after `setLinkingCosts` without a prior check.
- LAPTracking.LAPTracker.LinkObjectsToTrackSegments: when linking matrices are set, requires a table with at least one frame and a matrix at every frame but the last. It calls `solveLAPForTrackSegments`. So the empty-table throw at `LAPTracker.java:509` and the null matrix described below are not modelled here either.
- LAPTracking.LAPTracker.SolveLAPForTrackSegments: requires a matrix at every frame but the last. A missing one (possible after `setLinkingCosts`) would hand the solver a null, which is not modelled. The requires `linkingCosts.Some?` also excludes a null map: with one frame Java never enters the loop and returns normally (`LAPTracker.java:511`), and with two or more it throws a `NullPointerException` at `linkingCosts.get` (`LAPTracker.java:516`). Neither case is modelled.
- SpotSegmentation.AbstractSpotSegmenter.CheckInput: the float radius and calibration are reals, so a NaN, which passes Java's `<= 0` tests, is not modelled. The imglib image is reduced to its dimension count, and the settings are a type parameter.
- SifHeader.VersionLine: the `Double.parseDouble` of tokens 5, 18 and 47 on line 2 is taken to succeed, and the temperature, readout, exposure and gain fields it fills are not modelled (floating point, display only).
- The camera model and file name read from header lines 3 and 5 are not modelled; they are only displayed.
- Decimal.ParseBounded: only ASCII digits are accepted, while `Integer.parseInt` also accepts other Unicode decimal digits.
- SifHeader.ScanOffset: at end of file Java's `read()` returns -1 forever, so the source loops without end; the model answers None there instead. The offset is an unbounded natural number, not a wrapping int, because a header past 2 GiB is outside the scan's use.
- The dialogs and the `(int)` cast of the start and end frames typed into them, `FileOpener`, the `Editor` result window, the `Date`, `convertToShort` and `flipVertical` are not modelled: they are host I/O and floating point. The clamp takes the two ints as input.
- `MySIF_Reader.java`, `SubFake.java` and `ArchipelagoServer.java` are not part of this model. The first is stream I/O around `FileOpener`, the second a build tool on the filesystem, and the third threads and sockets.

## Findings

| source | as written | input that shows it | evidently intended | confidence | as-written member | corrected member |
|---|---|---|---|---|---|---|
| src-plugins/IO_/src/main/java/io/Open_SIFkai_.java:149-155 | a start past the stack is reset to the end before the end is clamped, and a negative end is never raised | start 20, end 30, stack size 10 gives start 29 and end 10, so -19 frames are requested (line 170); end -5 gives start 0, end -5 | the frames requested lie inside the stack: 0 <= start <= end <= stack size | not executed | SifHeader.ClampCanInvert | SifHeader.ClampRange |
| src-plugins/IO_/src/main/java/io/Open_SIFkai_.java:171 | the frame offset `offset + k*height*width*4` is computed in 32-bit int arithmetic | frame 2048 of a 512 by 512 stack with offset 0: the exact offset 2^31 wraps to -2^31 | the exact byte offset, one frame size past the previous frame | not executed | SifHeader.FrameOffsetOverflows | SifHeader.ByteOffsetStride |
