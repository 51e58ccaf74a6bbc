# Verification of the edge and central pipelines

This project models the small stateful algorithms of the repository that decide which detections survive, get delivered
and get admitted, and proves what they promise over every input and every run.

- `Text`, `ConfigManager`, `ConfigKeys`, `ConfigRoundTrip`, `ConfigTopLevel`, `ConfigQuoted`: the configuration parser of the
  edge device, a stack machine over indented lines, the theorem that parsing undoes printing, what becomes of lists under no
  section, and what quotes protect.
- `Geometry`, `Nms`, `NmsOrder`, `GridOverlap`, `GridLayout`, `YoloPostprocess`, `YoloRoundTrip`, `Yolov8Postprocess`,
  `Yolov8RoundTrip`, `Yolov8Reach`: box overlap, non-maximum suppression as the kernel of a conflict graph, and the two decoders
  from raw tensors to boxes.
- `DetectionCache`, `TemporalTracker` with `TrackerRuns`, `TrackerChoices` and `TrackerBehaviors`, `ReId` with `ReIdRuns`,
  `ReIdExact`, `ReIdAnswers` and `ReIdTracks`: pruned, bounded state against specifications over the whole history.
- `DetectionQueue`, `GrpcClient`: the bounded spill queue and the reconnecting sender.
- `RateLimiter`, `CircuitBreaker`, `VlmPipeline` with `VlmRuns`: admission control and the batching worker.
- `ThreadPool` with `ThreadPoolRuns`: the worker pool under every interleaving.
- `RealSums`, `Trend`, `Anomalies`: regression and z-scores.

The code that changes state is modelled by classes and arrays whose methods are proved against functions of the state; runs of
those functions carry the theorems. Interleavings (thread pool, worker and its producers) are step machines.

Conventions. Floating-point numbers are `real`. `sqrt`, `exp` and the cosine similarity are parameters: of a square root only
that it is not negative and squares back is used, of the exponential only that it is positive (and, for the boxes a cell can
yield, that it takes every positive value), of the similarity nothing. Clocks are arguments. The network answers each question
of the sender by an arbitrary function of a counter, and inference results and failures are arbitrary. Integers are unbounded,
except the cast of a frame gap to 32 bits, which is modelled.

Findings, each proved below; where a sentence says exactly, so does the theorem.

- The boxes that survive suppression depend on the input order exactly if two different tied boxes conflict that no more
  confident survivor conflicts with.
- A quoted value survives the file exactly if it holds no `#` and no newline, and no quote or blank at an end.
- A list under no section whose continuation lines have values loads as written exactly if it is at most one item on one line:
  all its items are item 0, and its continuation lines become plain keys.
- The narrowing cast keeps a track alive across a gap of 2^31 frames.
- A track of two points or more that was followed long enough is neither Loitering nor Running exactly if the speed threshold
  is 0 and it never moved; it may then still be Lingering.
- The YOLOv8 decoder writes past its buffer exactly if it has more than 16 bins and some score of an accepted scale beats the
  threshold and 0.
- With no lower limit on the samples, learning a baseline from no sample divides by zero.
- Re-identification forgets a track that a late query still needed exactly if timestamps run back far enough (where some
  feature matches itself).
- The early return for fewer than ten rows hides outliers exactly if the threshold is not positive or its square is at most 8.
- Two baselines share a slot exactly if one id and metric pair splits the other at a colon.
- A spill queue that allows no entries never returns from its eviction loop.
- A pool of no workers abandons its tasks at shutdown.
- Shutting the VLM worker down with an empty queue abandons the batch in hand; the drain is only waited for if the queue is not
  empty.
- `StreamDetection` answers true on every path, also while disconnected, where
  `rk3588-edge/tests/unit_tests/test_grpc_client.cpp` expects false; the model follows the code. Once the reconnection attempts
  are used up the sender never tries again.

## Model

| member | source | states |
|---|---|---|
| `ConfigParser.ConfigManager.LoadFromFile` | rk3588-edge/include/neuro/pipeline/config_manager.hpp:25-136 | an unreadable file changes nothing and answers false; otherwise the settings become what the line machine makes of the whole text |
| `ConfigParser.ConfigManager.ProcessLine` | rk3588-edge/include/neuro/pipeline/config_manager.hpp:40-130 | one turn of the line loop takes all six loop variables and the settings from one state of the machine to the next |
| `ConfigParser.ConfigManager.PutListItem` | rk3588-edge/include/neuro/pipeline/config_manager.hpp:63-75 | a "key: value" text of a list item is filed under section, item number and key; other text changes nothing |
| `ConfigParser.ConfigManager.PutDash` | rk3588-edge/include/neuro/pipeline/config_manager.hpp:53-77 | a dash line starts a list in the open section, or the next item, or stays in the current one, and files its field there |
| `ConfigParser.ConfigManager.PutPlain` | rk3588-edge/include/neuro/pipeline/config_manager.hpp:106-130 | a line without a value that is not a quoted empty one opens a section, any other "key: value" line is filed under the open sections |
| `ConfigParser.ConfigManager.PopSections` | rk3588-edge/include/neuro/pipeline/config_manager.hpp:102-104 | leaves exactly the sections below the first one that is not shallower than the line |
| `ConfigParser.ConfigManager.TrimValue` | rk3588-edge/include/neuro/pipeline/config_manager.hpp:171-175 | cuts spaces, tabs and quotes off both ends and nothing else |
| `ConfigRoundTrip.ParseUndoesPrint` | rk3588-edge/include/neuro/pipeline/config_manager.hpp:39-131 | for every well-formed tree of sections, scalars and lists of records, in any layout, loading its printed text binds exactly its values, each to the names that lead to it, outermost first and joined by dots, an item of a list being named by its number; later duplicates win |
| `ConfigRoundTrip.ValueUnderSections` | rk3588-edge/include/neuro/pipeline/config_manager.hpp:101-129 | a value under any chain of sections is bound to their names and its own, joined by dots, and nothing else is |
| `ConfigKeys.SectionIsJoined` | rk3588-edge/include/neuro/pipeline/config_manager.hpp:177-185 | the open section is the names of its headers from the outermost in, joined by dots; empty names count only behind one that is not |
| `ConfigKeys.PlainBinds` | rk3588-edge/include/neuro/pipeline/config_manager.hpp:126-129 | a plain line is filed under the names of the sections it is in and its own, joined by dots |
| `ConfigKeys.ItemPathIsJoined` | rk3588-edge/include/neuro/pipeline/config_manager.hpp:73 | the key of a list field is the section's names, the item's number and the field's name, joined by dots |
| `Text.NumeralReadsBack` | rk3588-edge/include/neuro/pipeline/config_manager.hpp:73 | the numeral of an item number has digits only and reads back as the number |
| `ConfigRoundTrip.LayoutIsFree` | rk3588-edge/include/neuro/pipeline/config_manager.hpp:40-51 | a line may end in blanks, tabs and a carriage return or a comment |
| `ConfigRoundTrip.DeeperDashJoinsItem` | rk3588-edge/include/neuro/pipeline/config_manager.hpp:57-76 | a dash line deeper than its list starts no item: its field joins the open one |
| `ConfigRoundTrip.RunNodes` | rk3588-edge/include/neuro/pipeline/config_manager.hpp:39-131 | a printed block adds exactly its bindings under the open sections and leaves the machine ready for the next sibling |
| `ConfigRoundTrip.RunItems` | rk3588-edge/include/neuro/pipeline/config_manager.hpp:53-92 | a printed list of records adds exactly its bindings, numbered from the running item number, and leaves the sections open that were |
| `ConfigRoundTrip.RunRecord` | rk3588-edge/include/neuro/pipeline/config_manager.hpp:53-92 | a dash line and its continuation lines, each indented deeper, are one record |
| `ConfigRoundTrip.StepHeader` | rk3588-edge/include/neuro/pipeline/config_manager.hpp:94-125 | a header ends the list before it and opens its section below the enclosing ones only |
| `ConfigRoundTrip.LexField` | rk3588-edge/include/neuro/pipeline/config_manager.hpp:40-51 | indentation, blanks around the colon, quotes, comments and trailing blanks make no difference to the key and value that are read |
| `ConfigRoundTrip.LexRemark` | rk3588-edge/include/neuro/pipeline/config_manager.hpp:40-51 | blank and comment lines are skipped |
| `ConfigRoundTrip.PutAllLooksUpLast` | rk3588-edge/include/neuro/pipeline/config_manager.hpp:73-74 | of several bindings of a key the last one is looked up |
| `ConfigRoundTrip.PutAllKeeps` | rk3588-edge/include/neuro/pipeline/config_manager.hpp:73-74 | keys that are not bound keep their value |
| `ConfigRoundTrip.RunSound` | rk3588-edge/include/neuro/pipeline/config_manager.hpp:101-125 | on every file, well-formed or not, the indents of the open sections strictly increase, and a list that is tracked has an item number and an indent |
| `ConfigRoundTrip.PoppedBelow` | rk3588-edge/include/neuro/pipeline/config_manager.hpp:101-104 | popping keeps exactly the sections shallower than the line |
| `ConfigRoundTrip.TopLevelDashRestarts` | rk3588-edge/include/neuro/pipeline/config_manager.hpp:54-62 | one dash line outside any section is filed as item 0 and leaves no list open |
| `ConfigTopLevel.TopLevelListLoadsAs` | rk3588-edge/include/neuro/pipeline/config_manager.hpp:53-131 | the text of a list that stands under no section, and whose continuation lines have values, loads every dash line as item 0, later ones overwriting, and every continuation line as a plain key |
| `ConfigTopLevel.TopLevelListLoadsIff` | rk3588-edge/include/neuro/pipeline/config_manager.hpp:53-131 | so a list whose continuation lines have values loads as the list it is exactly if it is at most one item on one line |
| `ConfigQuoted.LoadedValuesArePlain` | rk3588-edge/include/neuro/pipeline/config_manager.hpp:36-51 | loading a file, well-formed or not, never gives a key a value that holds a # or a newline |
| `ConfigQuoted.QuotedValueSurvivesIff` | rk3588-edge/include/neuro/pipeline/config_manager.hpp:36-51 | written in quotes to a file, a value comes back exactly if it holds no # and no newline, and no quote or blank at an end: quotes protect neither |
| `Geometry.IoUSymmetric` | rk3588-edge/src/ai_inference/yolo_postprocess.cpp:114-129 | overlap does not depend on the order of the boxes |
| `Geometry.IoUBounded` | rk3588-edge/src/ai_inference/yolo_postprocess.cpp:114-129 | overlap of boxes with ordered corners is a fraction between 0 and 1 |
| `Geometry.IoUExtremes` | rk3588-edge/src/ai_inference/yolo_postprocess.cpp:114-129 | boxes with area overlap fully exactly if they are equal, and not at all exactly if they are apart |
| `GridOverlap.IoUIsCellRatio` | rk3588-edge/src/ai_inference/yolo_postprocess.cpp:114-129 | for boxes with corners on any grid, overlap is the number of cells both cover over the number that one of them covers, and 0 if they cover none |
| `GridOverlap.OverlapOfInner` | rk3588-edge/src/ai_inference/yolo_postprocess.cpp:114-129 | a box inside another overlaps it by the ratio of their areas |
| `GridOverlap.OverlapOfShifted` | rk3588-edge/src/ai_inference/yolo_postprocess.cpp:114-129 | a box and its copy moved by d along a side of length w overlap by (w - d) / (w + d) |
| `GridOverlap.BothSurviveIff` | rk3588-edge/src/ai_inference/yolo_postprocess.cpp:131-161 | of two boxes on any grid both survive exactly if they are of two classes or share at most the threshold of the cells they cover; else the surer one alone |
| `GridOverlap.SurvivorsShareLittle` | rk3588-edge/src/ai_inference/yolo_postprocess.cpp:145-158 | of any input, no two survivors of a class share more than the threshold of the cells they cover |
| `Nms.NMS` | rk3588-edge/src/ai_inference/yolo_postprocess.cpp:131-161 | the bitmap loops, on the array sorted in place, compute the recursive selection: keep the head, drop its conflicts, go on |
| `Nms.SuppressConflicts` | rk3588-edge/src/ai_inference/yolo_postprocess.cpp:150-157 | marks exactly the later boxes that conflict, and unmarks none |
| `Nms.SortByConfidence` | rk3588-edge/src/ai_inference/yolo_postprocess.cpp:136-140 | falling confidence and the same boxes; nothing about ties |
| `Nms.GreedyMeaning` | rk3588-edge/src/ai_inference/yolo_postprocess.cpp:145-158 | survivors are a conflict-free sublist of the sorted boxes, and each box left out conflicts with a survivor at least as confident |
| `Nms.NmsIsIdempotent` | rk3588-edge/src/ai_inference/yolo_postprocess.cpp:131-161 | running suppression on the survivors, in any order of ties, keeps every one |
| `Nms.GreedyIsKernel` | rk3588-edge/src/ai_inference/yolo_postprocess.cpp:145-158 | if conflicting boxes are never tied the survivors are a kernel of the conflict graph |
| `Nms.KernelUnique` | rk3588-edge/src/ai_inference/yolo_postprocess.cpp:145-158 | a conflict graph has at most one kernel |
| `Nms.NmsIgnoresInputOrder` | rk3588-edge/src/ai_inference/yolo_postprocess.cpp:131-161 | with distinct confidences the result is one list whatever the input order and whatever the sort does, and it is the only kernel |
| `NmsOrder.OrderIndependentIff` | rk3588-edge/src/ai_inference/yolo_postprocess.cpp:136-158 | for the boxes of one input: every order of falling confidence keeps the same boxes exactly if no two tied conflicting boxes are both free of conflict with the more confident survivors |
| `NmsOrder.GreedyConcat` | rk3588-edge/src/ai_inference/yolo_postprocess.cpp:145-158 | what survives of a list is what survives of its beginning, and then of the rest that this leaves |
| `NmsOrder.StockIsOrderIndependentIff` | rk3588-edge/src/ai_inference/yolo_postprocess.cpp:136-158 | all inputs drawn from a stock of boxes are order independent exactly if no two conflicting boxes of the stock are tied |
| `Nms.TiesDependOnOrder` | rk3588-edge/src/ai_inference/yolo_postprocess.cpp:136-140 | two conflicting boxes of equal confidence: whichever comes first survives |
| `YoloPostprocess.Process` | rk3588-edge/src/ai_inference/yolo_postprocess.cpp:32-112 | the result is the suppression of exactly the candidates of all heads of the accepted size, in some order of falling confidence |
| `YoloPostprocess.DecodeHead` | rk3588-edge/src/ai_inference/yolo_postprocess.cpp:53-108 | appends the candidates of all anchors, rows and cells in loop order |
| `YoloPostprocess.DecodeRow` | rk3588-edge/src/ai_inference/yolo_postprocess.cpp:57-106 | appends the candidates of one row of cells in order |
| `YoloPostprocess.DecodeCell` | rk3588-edge/src/ai_inference/yolo_postprocess.cpp:57-105 | the class loop, both tests and the decoded box of a cell |
| `YoloPostprocess.ReadsInBounds` | rk3588-edge/src/ai_inference/yolo_postprocess.cpp:44-67 | every read of a head of the expected size is in bounds |
| `YoloPostprocess.ReadsAreDistinct` | rk3588-edge/src/ai_inference/yolo_postprocess.cpp:51-67 | no element of a head is read for two different anchors, channels or cells |
| `YoloPostprocess.EveryElementHasItsPlace` | rk3588-edge/src/ai_inference/yolo_postprocess.cpp:51-67 | every element of a head belongs to some anchor, channel and cell |
| `YoloPostprocess.BestMeaning` | rk3588-edge/src/ai_inference/yolo_postprocess.cpp:63-72 | the chosen class is the first of the highest score, and class 0 with score -1 only if none exceeds -1 |
| `YoloPostprocess.EarlyExitLosesNothing` | rk3588-edge/src/ai_inference/yolo_postprocess.cpp:60-75 | with scores in [0,1] leaving early on low objectness drops no cell that the test of the full product would keep |
| `YoloPostprocess.DecodedInUnitSquare` | rk3588-edge/src/ai_inference/yolo_postprocess.cpp:77-98 | whatever the tensor holds, a decoded box has its corners in order and in [0,1] |
| `YoloPostprocess.DecodeUndoesEncode` | rk3588-edge/src/ai_inference/yolo_postprocess.cpp:77-98 | decoding inverts the encoding of every box inside the image, from every cell and anchor, corner by corner |
| `YoloRoundTrip.HeadAt` | rk3588-edge/src/ai_inference/yolo_postprocess.cpp:44-67 | the element read for a channel of a cell of an anchor is that of this anchor, channel, row and column of a head laid out in this order |
| `YoloRoundTrip.WrittenBoxIsFoundIff` | rk3588-edge/src/ai_inference/yolo_postprocess.cpp:57-105 | a box written into any cell of any anchor of a head is a candidate, with its class and objectness times class score as confidence, exactly if objectness and product reach the threshold |
| `YoloRoundTrip.DecodedInPixels` | rk3588-edge/src/ai_inference/yolo_postprocess.cpp:77-98 | in pixels: a box not cut off at the border has its middle 2t - 0.5 cells beyond the lower end of its cell, and sides of 4t^2 anchors |
| `YoloPostprocess.CandidatesIff` | rk3588-edge/src/ai_inference/yolo_postprocess.cpp:42-109 | a box is a candidate exactly if some cell of some head of the accepted size yields it |
| `YoloPostprocess.CandidatesAreSound` | rk3588-edge/src/ai_inference/yolo_postprocess.cpp:60-105 | every candidate lies in the unit square, reaches the threshold and carries the name of its class |
| `YoloPostprocess.ResultIsSound` | rk3588-edge/src/ai_inference/yolo_postprocess.cpp:32-112 | every box returned came from a cell and is sound, no two conflict, and every cell box missing has a conflicting stand-in of at least its confidence |
| `YoloPostprocess.NothingIsSuppressedAtOne` | rk3588-edge/src/ai_inference/yolo_postprocess.cpp:150-157 | at a suppression threshold of 1 or more all candidates are returned, each as often as it occurs |
| `Yolov8Postprocess.Process` | rk3588-edge/src/ai_inference/yolov8_postprocess.cpp:38-126 | fewer than two outputs to a scale give nothing; with more than 16 bins the buffer is overrun exactly if some score of an accepted scale qualifies; otherwise the result is the suppression of exactly the candidates of the accepted scales |
| `Yolov8Postprocess.DecodeScale` | rk3588-edge/src/ai_inference/yolov8_postprocess.cpp:76-122 | appends the candidates of all rows and cells in loop order |
| `Yolov8Postprocess.DecodeRow` | rk3588-edge/src/ai_inference/yolov8_postprocess.cpp:77-121 | appends the candidates of one row in order |
| `Yolov8Postprocess.DecodeCell` | rk3588-edge/src/ai_inference/yolov8_postprocess.cpp:78-120 | the class choice and the decoded box of a cell, unless it has a class and its bins do not fit the buffer |
| `Yolov8Postprocess.BestClass` | rk3588-edge/src/ai_inference/yolov8_postprocess.cpp:80-89 | the class loop, reading only in bounds |
| `Yolov8Postprocess.FillBuffer` | rk3588-edge/src/ai_inference/yolov8_postprocess.cpp:93-97 | the buffer receives the channels of the cell in order, inside its 64 places for up to 16 bins |
| `Yolov8Postprocess.DecodeSides` | rk3588-edge/src/ai_inference/yolov8_postprocess.cpp:93-99 | the four distances are the mean bins of the four distributions of the cell |
| `Yolov8Postprocess.ComputeDFL` | rk3588-edge/src/ai_inference/yolov8_postprocess.cpp:20-36 | writes to each of the four places the mean bin of its own distribution |
| `Yolov8Postprocess.MeanBin` | rk3588-edge/src/ai_inference/yolov8_postprocess.cpp:23-34 | the two loops compute the mean of the bins under the softmax of the logits |
| `Yolov8Postprocess.ReadsInBounds` | rk3588-edge/src/ai_inference/yolov8_postprocess.cpp:65-97 | every read of a tensor of the accepted size is in bounds |
| `Yolov8Postprocess.BranchesExist` | rk3588-edge/src/ai_inference/yolov8_postprocess.cpp:51-63 | with two outputs or more to a scale both tensors of each scale exist, so the check that breaks off the loop never fires |
| `Yolov8Postprocess.BestMeaning` | rk3588-edge/src/ai_inference/yolov8_postprocess.cpp:80-89 | a class is found exactly if some score beats the threshold and 0, and it is the first of the highest |
| `Yolov8Postprocess.DistanceBounds` | rk3588-edge/src/ai_inference/yolov8_postprocess.cpp:23-34 | a decoded distance lies between the first bin and the last, strictly if there are two |
| `Yolov8Postprocess.SideBounds` | rk3588-edge/src/ai_inference/yolov8_postprocess.cpp:20-36 | each of the four distances of a cell is strictly inside the bins for two bins or more, and 0 for fewer |
| `Yolov8Postprocess.BoxAroundItsCell` | rk3588-edge/src/ai_inference/yolov8_postprocess.cpp:93-112 | a decoded box lies in the unit square around the middle of its cell, and has area exactly if there are at least two bins |
| `Yolov8Postprocess.DecodeUndoesEncode` | rk3588-edge/src/ai_inference/yolov8_postprocess.cpp:101-112 | from four distances, negative or large ones included, the edges of every box inside the image come back |
| `Yolov8RoundTrip.DistanceBalancesIff` | rk3588-edge/src/ai_inference/yolov8_postprocess.cpp:23-34 | the decoded distance is where the bins, weighted by their exponentials, balance, and the only place |
| `Yolov8RoundTrip.ChannelAt` | rk3588-edge/src/ai_inference/yolov8_postprocess.cpp:65-97 | the element read for a channel of a cell is that of this side or class, bin, row and column |
| `Yolov8RoundTrip.WrittenBoxIsDecodedIff` | rk3588-edge/src/ai_inference/yolov8_postprocess.cpp:78-120 | a box whose four distances are written as left, top, right and bottom into any cell of a scale is what the cell yields, with its class and score, exactly if the score beats the threshold and 0 |
| `Yolov8RoundTrip.WrittenBoxIsCandidate` | rk3588-edge/src/ai_inference/yolov8_postprocess.cpp:54-123 | and then it is one of the candidates that are left to suppression |
| `Yolov8RoundTrip.EdgeInPixels` | rk3588-edge/src/ai_inference/yolov8_postprocess.cpp:101-112 | in pixels an edge not cut off at the border lies its distance, in cells, from the middle of its cell |
| `Yolov8Reach.DecodableIff` | rk3588-edge/src/ai_inference/yolov8_postprocess.cpp:20-36 | with an exponential onto the positive numbers the distances that some logits decode to are exactly those strictly between the first bin and the last; 0 for fewer than two bins |
| `Yolov8Reach.CellStandsForIff` | rk3588-edge/src/ai_inference/yolov8_postprocess.cpp:93-112 | up to 16 bins the boxes a cell can yield, over all its logits, are exactly those inside the image whose four edges are at decodable distances from the middle of the cell; above 16 the buffer is overrun and there is none |
| `Yolov8Postprocess.CandidatesIff` | rk3588-edge/src/ai_inference/yolov8_postprocess.cpp:54-123 | a box is a candidate exactly if some cell of some accepted scale yields it |
| `Yolov8Postprocess.CandidatesExistIff` | rk3588-edge/src/ai_inference/yolov8_postprocess.cpp:54-123 | there is a candidate exactly if some score of an accepted scale beats the threshold and 0 |
| `Yolov8Postprocess.SeventeenBinsOverrun` | rk3588-edge/src/ai_inference/yolov8_postprocess.cpp:91-97 | one class, 17 bins and an image of one cell: whatever the box tensor holds, a score of 0.9 overruns the buffer |
| `Yolov8Postprocess.CandidatesAreSound` | rk3588-edge/src/ai_inference/yolov8_postprocess.cpp:76-122 | every candidate lies in the unit square, beats the threshold, carries the name of its class, and has area exactly if there are at least two bins |
| `Yolov8Postprocess.ResultIsSound` | rk3588-edge/src/ai_inference/yolov8_postprocess.cpp:38-126 | every box returned came from a cell and is sound, no two conflict, and every cell box missing has a conflicting stand-in of at least its confidence |
| `RateLimiter.Bucket.constructor` | mac-central/src/communication/rate_limiter.py:41-45 | a new bucket is full |
| `RateLimiter.Bucket.Consume` | mac-central/src/communication/rate_limiter.py:47-55 | refill, cap and payment, tied to the bucket function that the theorems are about |
| `RateLimiter.TokenBucketRateLimiter.Allow` | mac-central/src/communication/rate_limiter.py:21-27 | one call: the bucket object of the device, made if it is new, answers; no other bucket object changes |
| `RateLimiter.TokenBucketRateLimiter.AddBucket` | mac-central/src/communication/rate_limiter.py:25-26 | only a device without a bucket gets one, its own object with the limits in force |
| `RateLimiter.TokenBucketRateLimiter.UpdateLimits` | mac-central/src/communication/rate_limiter.py:29-35 | new limits, and no bucket survives |
| `RateLimiter.CreditIsTightest` | mac-central/src/communication/rate_limiter.py:47-55 | the tokens in a bucket are exactly the slack of the tightest window since it was created |
| `RateLimiter.ConsumedIffFits` | mac-central/src/communication/rate_limiter.py:47-55 | the next request is granted exactly if every window that ends with it stays within its quota |
| `RateLimiter.GrantedIffFits` | mac-central/src/communication/rate_limiter.py:47-55 | sound and complete for every call of any run, whatever the sign of the rate and whatever the clock does |
| `RateLimiter.GrantedIffWindowsFit` | mac-central/src/communication/rate_limiter.py:47-55 | with a rate that is not negative: call j is granted exactly if for each i up to j the grants from i to j, this one included, are at most burst + rate * elapsed |
| `RateLimiter.NoWindowExceedsQuota` | mac-central/src/communication/rate_limiter.py:11-12 | no stretch of calls is granted more than burst + rate * its length |
| `RateLimiter.DevicesAreIsolated` | mac-central/src/communication/rate_limiter.py:21-27 | between changes of the limits the answers to a device are those of a bucket fed only its own calls, for every interleaving |
| `RateLimiter.SharedBucketIff` | mac-central/src/communication/rate_limiter.py:23 | two ids share a bucket exactly if they are equal or are the empty id and "__global__" |
| `SpillQueue.DetectionQueue.constructor` | rk3588-edge/src/communication/detection_queue.cpp:7-8 | an empty queue with nothing recorded, whatever its limits |
| `SpillQueue.DetectionQueue.Enqueue` | rk3588-edge/src/communication/detection_queue.cpp:10-30 | what cannot be serialised changes nothing; what can be never returns exactly if no entries are allowed; else as many of the oldest are dropped as the eviction loop must and the newcomer is appended, with byte count, bounds and counters exact |
| `SpillQueue.DetectionQueue.MakeRoom` | rk3588-edge/src/communication/detection_queue.cpp:19-24 | the eviction loop ends exactly if at least one entry is allowed, and then with room, having dropped from the front only |
| `SpillQueue.DetectionQueue.EvictOldest` | rk3588-edge/src/communication/detection_queue.cpp:59-65 | drops the front entry and counts it; an empty queue stays as it is |
| `SpillQueue.DetectionQueue.Dequeue` | rk3588-edge/src/communication/detection_queue.cpp:32-47 | takes the front entry, which leaves the queue even if it cannot be read back, or answers that there is none |
| `SpillQueue.DetectionQueue.Empty` | rk3588-edge/src/communication/detection_queue.cpp:54-57 | answers whether nothing waits |
| `SpillQueue.KeepsLongestSuffix` | rk3588-edge/src/communication/detection_queue.cpp:19-24 | what survives is the longest old suffix that the queue may hold together with the newcomer: not too many entries, and not too many bytes unless it is a single entry |
| `SpillQueue.RoomMonotone` | rk3588-edge/src/communication/detection_queue.cpp:19-24 | what the queue may hold with the newcomer it may hold after more evictions, so none was spared at the cost of an older one |
| `SpillQueue.RequeueNeverEvicts` | rk3588-edge/src/communication/detection_queue.cpp:19-30 | putting back an entry that was just taken out never evicts |
| `SpillQueue.NothingEvictedIff` | rk3588-edge/src/communication/detection_queue.cpp:19-24 | nothing is evicted exactly if the queue may hold the newcomer besides all it has |
| `SpillQueue.ZeroCapacityNeverHasRoom` | rk3588-edge/src/communication/detection_queue.cpp:20-22 | with no entries allowed the guard of the eviction loop never turns false |
| `Delivery.BackoffNeverShrinks` | rk3588-edge/src/communication/grpc_client.cpp:62-65 | waiting times never shrink from attempt to attempt and never exceed 30 seconds |
| `Delivery.BackoffDoubles` | rk3588-edge/src/communication/grpc_client.cpp:62-65 | the first wait is the initial one, each of the next 15 twice the one before, capped at 30 seconds, and then they stay |
| `Delivery.GRPCClient.Connect` | rk3588-edge/src/communication/grpc_client.cpp:67-97 | the client is connected afterwards exactly if it was or the network answers all three questions; a fresh connection resets the attempts |
| `Delivery.GRPCClient.Handshake` | rk3588-edge/src/communication/grpc_client.cpp:192-208 | succeeds exactly if channel, connection and health check do |
| `Delivery.GRPCClient.OpenStream` | rk3588-edge/src/communication/grpc_client.cpp:139-156 | answers whether a stream is open, asking the network only if none was |
| `Delivery.GRPCClient.CloseStream` | rk3588-edge/src/communication/grpc_client.cpp:158-169 | leaves no stream open |
| `Delivery.GRPCClient.SendOrRequeue` | rk3588-edge/src/communication/grpc_client.cpp:262-273 | the entry taken out is either written or back in the queue, and nothing is evicted |
| `Delivery.GRPCClient.DrainQueue` | rk3588-edge/src/communication/grpc_client.cpp:259-277 | terminates; some number of front entries is written in order, the one that failed is at the tail, nothing is evicted; with the network up all go out |
| `Delivery.GRPCClient.DrainOne` | rk3588-edge/src/communication/grpc_client.cpp:236-254 | after a successful write the front entry is written, or moves to the tail |
| `Delivery.GRPCClient.SendOrDisconnect` | rk3588-edge/src/communication/grpc_client.cpp:218-234 | the detection is written, or the client is left disconnected without a stream |
| `Delivery.GRPCClient.Reconnect` | rk3588-edge/src/communication/grpc_client.cpp:183-216 | one attempt: counted if it fails, else reset and followed by a drain |
| `Delivery.GRPCClient.StreamDetection` | rk3588-edge/src/communication/grpc_client.cpp:170-257 | whatever the network does, the exact new contents of written, queue and evicted; the call answers true, and once the attempts are used up it only spills |
| `Delivery.GRPCClient.StreamAll` | rk3588-edge/src/communication/grpc_client.cpp:170-277 | over any run of calls and any behaviour of the network everything passed in is, as a multiset, what was written plus what waits plus what was evicted |
| `Delivery.NothingVanishes` | rk3588-edge/src/communication/grpc_client.cpp:170-277 | the same for any sequence of accounts that calls lead through as their contract describes |
| `Delivery.ExactlyOnePlace` | rk3588-edge/src/communication/grpc_client.cpp:170-277 | a detection passed in once is in exactly one of the three places |
| `Delivery.DrainKeepsOrderIff` | rk3588-edge/src/communication/grpc_client.cpp:264-271 | a drain keeps the order of what is left exactly if it leaves at most one entry |
| `DetectionCache.DetectionCache.constructor` | rk3588-edge/include/neuro/pipeline/detection_cache.hpp:27-31 | an empty cache that has accepted nothing |
| `DetectionCache.DetectionCache.IsNovel` | rk3588-edge/src/data_processing/detection_cache.cpp:7-31 | under a clock that does not run backwards: true exactly if everything ever accepted that repeats the sighting has expired |
| `DetectionCache.DetectionCache.IsRepeated` | rk3588-edge/src/data_processing/detection_cache.cpp:18-26 | the scan finds a repetition exactly if an entry of the cache is one |
| `DetectionCache.DetectionCache.PopExpired` | rk3588-edge/src/data_processing/detection_cache.cpp:13-16 | the loop pops expired entries off the front until the front one is not |
| `DetectionCache.DetectionCache.DropExpired` | rk3588-edge/src/data_processing/detection_cache.cpp:13-16 | under a clock that does not run backwards that leaves exactly what has not expired of all ever accepted |
| `DetectionCache.DetectionCache.Cleanup` | rk3588-edge/src/data_processing/detection_cache.cpp:33-39 | leaves exactly what has not expired of all ever accepted, and changes no later answer |
| `DetectionCache.DetectionCache.Size` | rk3588-edge/src/data_processing/detection_cache.cpp:41-44 | counts the entries |
| `DetectionCache.NovelIff` | rk3588-edge/src/data_processing/detection_cache.cpp:18-30 | a sighting is new exactly if every one accepted before of its class whose box overlaps its own by at least the threshold is more than the time to live ago |
| `DetectionCache.FrontPoppingIsExactIff` | rk3588-edge/src/data_processing/detection_cache.cpp:13-16 | popping from the front equals filtering, at every time, exactly if the entries are in time order |
| `DetectionCache.AcceptedAreApart` | rk3588-edge/src/data_processing/detection_cache.cpp:7-31 | of two accepted sightings one repeats the other only if more than the time to live lies between them |
| `DetectionCache.EverySightingIsStoodFor` | rk3588-edge/src/data_processing/detection_cache.cpp:18-30 | every sighting is accepted or repeats one accepted before it that had not expired |
| `DetectionCache.ObjectThatStaysIsThrottled` | rk3588-edge/src/data_processing/detection_cache.cpp:7-31 | an object that keeps its place is forwarded at most 1 + elapsed / ttl times |
| `Tracking.TemporalTracker.Update` | rk3588-edge/src/data_processing/temporal_tracker.cpp:13-89 | one frame: matching, renewal, creation and removal take the tracker and the assigned ids to what the association function says |
| `Tracking.TemporalTracker.FindBest` | rk3588-edge/src/data_processing/temporal_tracker.cpp:20-33 | the scan over the tracks that existed before the frame |
| `Tracking.TemporalTracker.RenewTrack` | rk3588-edge/src/data_processing/temporal_tracker.cpp:36-51 | the track takes over the detection, its trajectory window slides, all other tracks are untouched |
| `Tracking.TemporalTracker.CreateTrack` | rk3588-edge/src/data_processing/temporal_tracker.cpp:56-74 | a fresh id and a trajectory of one centre |
| `Tracking.TemporalTracker.RemoveLost` | rk3588-edge/src/data_processing/temporal_tracker.cpp:78-86 | exactly the tracks that are not lost remain, in order |
| `Tracking.TemporalTracker.DetectBehaviors` | rk3588-edge/src/data_processing/temporal_tracker.cpp:91-139 | the report is that of the behaviour function over all tracks |
| `Tracking.TemporalTracker.Classify` | rk3588-edge/src/data_processing/temporal_tracker.cpp:95-136 | the first of the three tests that succeeds |
| `Tracking.TemporalTracker.TotalSpeed` | rk3588-edge/src/data_processing/temporal_tracker.cpp:111-116 | the summed lengths of the steps |
| `TrackerRuns.BestIsArgmax` | rk3588-edge/src/data_processing/temporal_tracker.cpp:20-33 | the match has the largest positive overlap among tracks not yet matched, the first such one |
| `TrackerRuns.NewTrackIff` | rk3588-edge/src/data_processing/temporal_tracker.cpp:35-75 | a track is created exactly if no track left over both overlaps and reaches the threshold |
| `TrackerRuns.JoinsLargestOverlap` | rk3588-edge/src/data_processing/temporal_tracker.cpp:20-54 | a detection that overlaps some track not yet matched enough joins the one it overlaps most, the first of those, and no other track changes |
| `TrackerChoices.DetectionsChooseInTurn` | rk3588-edge/src/data_processing/temporal_tracker.cpp:19-75 | of one frame: each detection in the order given goes to the best track that none before it took, or to a new one if no such track overlaps it enough |
| `TrackerChoices.AnswersFollowChoices` | rk3588-edge/src/data_processing/temporal_tracker.cpp:19-75 | and the answer is the id of that track, or a new id |
| `TrackerRuns.UpdateAnswers` | rk3588-edge/src/data_processing/temporal_tracker.cpp:13-89 | ids of one frame are distinct, each names a track showing that detection, and each is either fresh or that of a track live before |
| `TrackerRuns.LiveIffNotLost` | rk3588-edge/src/data_processing/temporal_tracker.cpp:78-86 | after a frame a track is live exactly if it was associated and is not lost |
| `TrackerRuns.RunConsistent` | rk3588-edge/src/data_processing/temporal_tracker.cpp:13-89 | in every run ids are never reused and each track agrees with the history of its sightings: count, first and last frame, last box, last centres |
| `TrackerRuns.LiveTracks` | rk3588-edge/src/data_processing/temporal_tracker.cpp:13-89 | with rising frame ids live tracks have distinct ids, 1 <= consecutive frames <= last - first + 1, the last min(consecutive, trajectory length) centres, and are not lost |
| `TrackerRuns.LostIsExactIff` | rk3588-edge/src/data_processing/temporal_tracker.cpp:82-84 | the gap is cast to 32 bits: the test agrees with the true gap for all gaps up to some bound exactly if the bound is below 2^31 frames |
| `TrackerRuns.GapThatNeverLapses` | rk3588-edge/src/data_processing/temporal_tracker.cpp:82-84 | a track last seen 2^31 frames ago is not removed |
| `TrackerBehaviors.LengthTriangle` | rk3588-edge/src/data_processing/temporal_tracker.cpp:99-116 | the triangle inequality from the defining property of the square root alone |
| `TrackerBehaviors.PathIsLonger` | rk3588-edge/src/data_processing/temporal_tracker.cpp:99-116 | the summed steps are never shorter than the displacement |
| `TrackerBehaviors.FollowedTrackIsReportedIff` | rk3588-edge/src/data_processing/temporal_tracker.cpp:95-123 | a track followed long enough is Loitering or Running exactly if the threshold is not 0 or the track moved |
| `TrackerBehaviors.ReportMembers` | rk3588-edge/src/data_processing/temporal_tracker.cpp:95-136 | the report holds exactly the tracks that show a behaviour |
| `TrackerBehaviors.ReportDistinct` | rk3588-edge/src/data_processing/temporal_tracker.cpp:95-136 | no track is reported twice |
| `TrackerBehaviors.LongTracksAreReported` | rk3588-edge/src/data_processing/temporal_tracker.cpp:91-139 | in any run with a positive threshold a long track is reported as Loitering exactly if its end lies within the threshold, once for each point, of its start, as Running exactly if not, and never as Lingering |
| `TrackerBehaviors.LoiteringIff` | rk3588-edge/src/data_processing/temporal_tracker.cpp:95-106 | Loitering exactly if matched often enough and the end of the trajectory lies within the threshold, once for each point, of its start |
| `TrackerBehaviors.RunningMeans` | rk3588-edge/src/data_processing/temporal_tracker.cpp:109-122 | a Running track made a step longer than the threshold |
| `TrackerBehaviors.LongStepsRun` | rk3588-edge/src/data_processing/temporal_tracker.cpp:109-122 | a track whose steps all are longer runs, unless it loiters |
| `TrackerBehaviors.LingeringMeans` | rk3588-edge/src/data_processing/temporal_tracker.cpp:125-134 | for spans below 2^31 frames: a Lingering track has fewer than half as many matches as frames passed from its first sighting to its last, and such a track shows some behaviour |
| `TrackerBehaviors.ReportsAreJustified` | rk3588-edge/src/data_processing/temporal_tracker.cpp:91-139 | every entry of a report is true of a track of that id in these terms, and every loitering track is reported |
| `TrackerBehaviors.TrajectoriesAreMiddles` | rk3588-edge/src/data_processing/temporal_tracker.cpp:47-51 | in any run the points of a trajectory are the middles of the boxes last sighted under its id, in order |
| `ReId.ReIDEngine.constructor` | mac-central/src/analytics/reid_engine.py:38-47 | an engine without features or tracks |
| `ReId.ReIDEngine.RegisterFeature` | mac-central/src/analytics/reid_engine.py:49-110 | match or new track, storing and pruning, tied to the registration function; every stored id is that of a track |
| `ReId.ReIDEngine.FindBest` | mac-central/src/analytics/reid_engine.py:68-84 | the scan for the most similar recent feature of another device and the same class |
| `ReId.ReIDEngine.PruneOld` | mac-central/src/analytics/reid_engine.py:167-169 | keeps exactly the entries not older than two windows |
| `ReId.ReIDEngine.FindMatches` | mac-central/src/analytics/reid_engine.py:112-144 | the first topK of the sorted matches |
| `ReIdAnswers.BestIsMostSimilar` | mac-central/src/analytics/reid_engine.py:68-84 | a match exists exactly if some entry of another device and the same class is recent and similar enough, and it is the first of the most similar ones |
| `ReIdAnswers.RegisteredAnswer` | mac-central/src/analytics/reid_engine.py:86-107 | the answer is the track of the most similar entry that qualifies, with that similarity on record, or a new track |
| `ReIdAnswers.AnswersAreBest` | mac-central/src/analytics/reid_engine.py:49-110 | in every run, in terms of the inputs and ids alone: a feature gets the id of the most similar earlier input of another device and its class within the window, or an id never given before if none is similar enough |
| `ReIdAnswers.PrunedAnswersAreBest` | mac-central/src/analytics/reid_engine.py:49-110 | the same with pruning, if no query looks back to what was dropped |
| `ReIdRuns.PruningIsInvisible` | mac-central/src/analytics/reid_engine.py:49-110 | if no query looks back to what was dropped, ids, tracks and counter equal those of an engine that never forgets |
| `ReIdRuns.TimelyMissesNothing` | mac-central/src/analytics/reid_engine.py:72-78 | which is so if no timestamp falls more than one window behind the latest seen |
| `ReIdRuns.FullStore` | mac-central/src/analytics/reid_engine.py:108 | without pruning the store holds every input, in order, with the id it was given |
| `ReIdExact.InvisibleIff` | mac-central/src/analytics/reid_engine.py:167-169 | pruning is invisible for all features exactly if no query looks back to a dropped entry |
| `ReIdExact.ForgetfulAnswer` | mac-central/src/analytics/reid_engine.py:86-106 | otherwise there are features for which the pruned engine starts a new track |
| `ReIdExact.FaithfulAnswer` | mac-central/src/analytics/reid_engine.py:86-106 | where one that never forgets continues the old track |
| `ReIdTracks.TracksAreTruthful` | mac-central/src/analytics/reid_engine.py:86-106 | in every run each track lists exactly the inputs that were given its id, in order, and all are of its class |
| `ReIdTracks.SearchIsUnaffected` | mac-central/src/analytics/reid_engine.py:120-141 | a search after a run finds the same in the pruned store as in a full one |
| `ReIdTracks.MatchesIff` | mac-central/src/analytics/reid_engine.py:124-141 | a match is listed exactly if its entry is stored, no older than the window, of the class and not of the device asked for, and similar enough |
| `ReIdTracks.SortedMeaning` | mac-central/src/analytics/reid_engine.py:143 | the sort gives falling similarity, the same matches, and ties in the order found |
| `ReIdTracks.TopKIsBest` | mac-central/src/analytics/reid_engine.py:143-144 | topK matches are returned if there are so many, and none left out is more similar than one returned |
| `Trend.TrendMeaning` | mac-central/src/analytics/timeseries_engine.py:42-86 | for every series: nothing below three values, the early return for a zero spread never happens, the direction is read off the least-squares slope, and r squared and the count are reported |
| `Trend.FitIsLeastSquares` | mac-central/src/analytics/timeseries_engine.py:53-71 | no line has a smaller squared error than the fitted one, and no other line one as small |
| `Trend.NormalEquations` | mac-central/src/analytics/timeseries_engine.py:58-71 | the residuals of the fitted line cancel, and so do their moments |
| `Trend.SpreadIsPositive` | mac-central/src/analytics/timeseries_engine.py:59-65 | the spread of two or more indices is positive, so the branch for 0 is dead |
| `Trend.RSquaredIsAFraction` | mac-central/src/analytics/timeseries_engine.py:70-73 | r squared lies in [0,1], and for values that differ it is 1 exactly if every point is on the line |
| `Trend.RSquaredIsExplainedShare` | mac-central/src/analytics/timeseries_engine.py:70-73 | r squared is the share of the spread of the values that lies along the fitted line |
| `Anomalies.DetectAnomalyPoints` | mac-central/src/analytics/timeseries_engine.py:88-117 | the loop reports the rows that the selection function selects |
| `Anomalies.FlaggedIff` | mac-central/src/analytics/timeseries_engine.py:107-116 | a row is reported exactly if its z-score reaches the threshold |
| `Anomalies.ReportedIff` | mac-central/src/analytics/timeseries_engine.py:97-116 | of ten or more rows that vary exactly those are reported whose distance from the mean is the threshold or more in standard deviations, with the mean and that distance |
| `Anomalies.ReportIsBounded` | mac-central/src/analytics/timeseries_engine.py:88-117 | at most n / k^2 of n rows are reported at a threshold k that is not negative |
| `Anomalies.ZTestSquared` | mac-central/src/analytics/timeseries_engine.py:109-110 | for a threshold that is not negative the z test is the test of squares |
| `Anomalies.ChebyshevBound` | mac-central/src/analytics/timeseries_engine.py:101-110 | at most n / k^2 of n samples are k standard deviations out |
| `Anomalies.SamuelsonBound` | mac-central/src/analytics/timeseries_engine.py:101-109 | no sample is further out than the square root of n - 1 standard deviations |
| `Anomalies.ShortSeriesHaveNoneIff` | mac-central/src/analytics/timeseries_engine.py:97-98 | returning nothing below ten rows loses nothing exactly if the threshold is positive and its square exceeds 8 |
| `Anomalies.NineValues` | mac-central/src/analytics/timeseries_engine.py:97-98 | nine values one of which lies the square root of 8 standard deviations out |
| `Anomalies.AnomalyBaseline.constructor` | mac-central/src/pipeline/anomaly_baseline.py:42-53 | no baselines yet |
| `Anomalies.AnomalyBaseline.LearnBaseline` | mac-central/src/pipeline/anomaly_baseline.py:55-97 | a baseline is stored exactly if there is a store with enough samples and at least one; no sample and no lower limit divides by zero; all other baselines are kept |
| `Anomalies.AnomalyBaseline.Score` | mac-central/src/pipeline/anomaly_baseline.py:99-136 | the score of a value against the stored baseline of its key |
| `Anomalies.AnomalyIff` | mac-central/src/pipeline/anomaly_baseline.py:99-136 | against a learned baseline a value is an anomaly exactly if there were samples enough and it lies the threshold or more standard deviations from their mean; without variance, if it is not the mean |
| `Anomalies.TrainedScoresAreBounded` | mac-central/src/pipeline/anomaly_baseline.py:55-136 | at a threshold k that is not negative a baseline flags at most n / k^2 of the n values it was trained on |
| `Anomalies.KeysCollideIff` | mac-central/src/pipeline/anomaly_baseline.py:84 | two device and metric pairs share a baseline exactly if they are equal or one splits the other at a colon |
| `ThreadPool.ThreadPool.Submit` | rk3588-edge/include/neuro/core/thread_pool.hpp:62-71 | refused after the stop, refused when full, else appended |
| `ThreadPool.ThreadPool.WorkerTurn` | rk3588-edge/src/data_processing/thread_pool.cpp:12-21 | sleep, leave, or take the front task |
| `ThreadPool.ThreadPool.BeginShutdown` | rk3588-edge/src/data_processing/thread_pool.cpp:32-37 | only the first call goes on to notify and join |
| `ThreadPool.ThreadPool.PendingTasks` | rk3588-edge/src/data_processing/thread_pool.cpp:47-50 | counts the queue |
| `ThreadPoolRuns.RunInv` | rk3588-edge/src/data_processing/thread_pool.cpp:5-45 | every interleaving of submitters, workers, notifications and shutdown keeps the invariant |
| `ThreadPoolRuns.ApplyNoLostWakeup` | rk3588-edge/src/data_processing/thread_pool.cpp:12-13 | while the queue is not empty some worker is awake or a notification is pending |
| `ThreadPoolRuns.StartedInSubmitOrder` | rk3588-edge/src/data_processing/thread_pool.cpp:19-20 | tasks are started in submit order, each once, and no more than the capacity wait |
| `ThreadPoolRuns.SubmitAcceptedIff` | rk3588-edge/include/neuro/core/thread_pool.hpp:62-71 | in every run of a pool with a worker a task is accepted exactly if shutdown was not called and fewer accepted tasks than the capacity wait |
| `ThreadPoolRuns.ShutdownWaitsForAllTasks` | rk3588-edge/src/data_processing/thread_pool.cpp:32-45 | when the first shutdown returns every accepted task has been started and run to its end once |
| `ThreadPoolRuns.ShutdownWaitsIff` | rk3588-edge/src/data_processing/thread_pool.cpp:32-45 | shutdown waits for all accepted tasks in every run exactly if the pool has a worker |
| `ThreadPoolRuns.NobodyStarts` | rk3588-edge/src/data_processing/thread_pool.cpp:5-26 | a pool of no workers starts and finishes nothing in any run |
| `ThreadPoolRuns.AbandonedTask` | rk3588-edge/src/data_processing/thread_pool.cpp:5-26 | a pool of no workers: shutdown returns although an accepted task never ran |
| `ThreadPoolRuns.StoppedPoolWindsDown` | rk3588-edge/src/data_processing/thread_pool.cpp:32-45 | from the moment the pool is stopped every step that changes anything, of workers, notifications and shutdown, leaves less to do |
| `ThreadPoolRuns.StoppedRunsAreBounded` | rk3588-edge/src/data_processing/thread_pool.cpp:32-45 | so a stopped pool makes no more such steps than it has work |
| `ThreadPoolRuns.StoppedPoolIsNeverStuck` | rk3588-edge/src/data_processing/thread_pool.cpp:32-45 | and until the first shutdown has returned it can make one |
| `ThreadPoolRuns.WaitingTasksMakeProgress` | rk3588-edge/src/data_processing/thread_pool.cpp:9-23 | while tasks wait some worker can move or be woken |
| `CircuitBreaker.CircuitBreaker.constructor` | mac-central/src/observability/circuit_breaker.py:9-22 | closed, with nothing on record |
| `CircuitBreaker.CircuitBreaker.AllowRequest` | mac-central/src/observability/circuit_breaker.py:24-37 | answer and new state of the three modes |
| `CircuitBreaker.CircuitBreaker.RecordSuccess` | mac-central/src/observability/circuit_breaker.py:39-43 | closes a half-open breaker and clears the counts |
| `CircuitBreaker.CircuitBreaker.RecordFailure` | mac-central/src/observability/circuit_breaker.py:45-51 | counts and dates the failure, opens a half-open breaker or one at the threshold |
| `CircuitBreaker.RunKeepsInv` | mac-central/src/observability/circuit_breaker.py:24-51 | in every run: failures below the threshold while closed, the last failure time is that of the latest failure, half-open only after the timeout |
| `CircuitBreaker.FailureCountIs` | mac-central/src/observability/circuit_breaker.py:39-51 | in every run the failure count is the number of failures since the latest success |
| `CircuitBreaker.ModeAfter` | mac-central/src/observability/circuit_breaker.py:24-51 | how each call changes the mode: a success closes a half-open breaker, a failure opens all but a closed one still below the threshold, an admission makes an open one half-open |
| `CircuitBreaker.OpensAtThreshold` | mac-central/src/observability/circuit_breaker.py:45-51 | a closed breaker opens exactly at the failure that is the threshold-th since the latest success |
| `CircuitBreaker.AdmittedIff` | mac-central/src/observability/circuit_breaker.py:24-37 | a request is admitted exactly if the breaker is closed, or open with the timeout passed since the latest failure, or half-open with calls left in the episode |
| `CircuitBreaker.ClosedBelowThresholdIff` | mac-central/src/observability/circuit_breaker.py:45-51 | closed always means fewer failures than the threshold exactly if the threshold is positive |
| `CircuitBreaker.AdmittedAfterRecovery` | mac-central/src/observability/circuit_breaker.py:27-37 | a request is admitted while not closed only if the timeout has passed since the latest failure |
| `CircuitBreaker.EpisodesAreBounded` | mac-central/src/observability/circuit_breaker.py:29-37 | a half-open episode admits at most max(1, half_open_max) requests |
| `CircuitBreaker.NeverHalfOpenBetweenItems` | mac-central/src/pipeline/vlm_pipeline.py:125-219 | a worker that reports each admitted item before the next leaves the breaker closed or open between items |
| `CircuitBreaker.AllowanceIsIrrelevant` | mac-central/src/observability/circuit_breaker.py:33-37 | so half_open_max makes no difference to the sequential worker |
| `CircuitBreaker.FailingRunsAreThrottled` | mac-central/src/observability/circuit_breaker.py:24-51 | an all-failing sequential run admits at most threshold + elapsed / recovery timeout calls |
| `VlmPipeline.MatchVlmRule` | mac-central/src/pipeline/detection_processor.py:160-169 | the first rule triggered by some detection; none exactly if no detection triggers any |
| `VlmPipeline.SurestDecides` | mac-central/src/pipeline/detection_processor.py:160-169 | a rule is triggered exactly if its bound lies below the confidence of the surest detection of its class |
| `VlmPipeline.VLMProcessingPipeline.Offer` | mac-central/src/pipeline/detection_processor.py:89-103 | refused once the gate is closed or the queue is full, else appended and counted |
| `VlmPipeline.VLMProcessingPipeline.Gather` | mac-central/src/pipeline/vlm_pipeline.py:86-99 | between 1 and max(1, batch_max_size) items, taken as the collecting function takes them; batch followed by queue is the old queue followed by what was accepted |
| `VlmPipeline.VLMProcessingPipeline.ProcessItem` | mac-central/src/pipeline/vlm_pipeline.py:125-219 | whatever happens to an item it is settled once, with one task_done, its own batch result if there is one, and the breaker told |
| `VlmPipeline.VLMProcessingPipeline.ProcessBatch` | mac-central/src/pipeline/vlm_pipeline.py:122-123 | the loop settles every item of the batch in order and leaves the breaker as the items in turn do |
| `VlmRuns.RunsAreAccounted` | mac-central/src/pipeline/vlm_pipeline.py:79-123 | in every interleaving requests are settled once each in the order accepted, the unfinished count is what is held or queued, batches respect the bound, and the breaker is not half-open between items |
| `VlmRuns.StepKeepsInv` | mac-central/src/pipeline/vlm_pipeline.py:79-123 | every step of producers, worker and shutdown keeps that accounting |
| `VlmRuns.PublicationsAreHonest` | mac-central/src/pipeline/vlm_pipeline.py:146-190 | if the engine answers what it is asked, what is published about a request is an answer to it, whole or its first 200 characters, however many results a batch brought |
| `VlmRuns.FinishPublishes` | mac-central/src/pipeline/vlm_pipeline.py:146-190 | an item is analysed exactly if it succeeded, and the batch's result in its own place is published, or its own if there is none |
| `VlmRuns.OfferAcceptedIff` | mac-central/src/pipeline/detection_processor.py:89-103 | in every run a request is accepted exactly if shutdown has not begun and fewer wait than the queue may hold |
| `VlmRuns.ShutdownLosesNothingIff` | mac-central/src/pipeline/vlm_pipeline.py:61-77 | cancelling the worker loses no accepted request exactly if nothing is unfinished at that moment but an item that is published already and whose upload or guidance is awaited |
| `VlmRuns.DrainDoneMeansSettled` | mac-central/src/pipeline/vlm_pipeline.py:63-67 | the drain branch finishes only when every accepted request was settled by the worker |
| `VlmRuns.RequestInHandIsAbandoned` | mac-central/src/pipeline/vlm_pipeline.py:63-73 | an empty queue skips the drain: a request already in a batch is abandoned |
| `VlmRuns.DrainIsBounded` | mac-central/src/pipeline/vlm_pipeline.py:79-123 | without new arrivals the worker makes no more steps than the work it has |
| `VlmRuns.DrainIsNeverStuck` | mac-central/src/pipeline/vlm_pipeline.py:79-123 | while shutdown waits and something is unfinished the worker has a step to make |
| `VlmRuns.DrainedIsJoined` | mac-central/src/pipeline/vlm_pipeline.py:63-67 | in every run, while shutdown waits, the join is through as soon as nothing is unfinished |
| `VlmRuns.DrainCompletes` | mac-central/src/pipeline/vlm_pipeline.py:63-67 | in every run: a drain that is not cut off and leaves the worker without a step is through, and loses nothing |
| `VlmPipeline.CollectedKeepsOrder` | mac-central/src/pipeline/vlm_pipeline.py:86-99 | whatever arrives meanwhile, collecting respects the bound and keeps the order in which requests were accepted |
| `VlmPipeline.CollectedTakesAll` | mac-central/src/pipeline/vlm_pipeline.py:86-99 | collecting does not stop early: while no wait runs out it takes a waiting item each time, up to the bound |
| `VlmRuns.GatherIsSteps` | mac-central/src/pipeline/vlm_pipeline.py:86-99 | the collecting loop and the interleaved steps of worker and producers come to the same |
| `VlmRuns.BatchIsSteps` | mac-central/src/pipeline/vlm_pipeline.py:122-123 | the loop over a batch and the worker steps of the interleaved model come to the same |

## Left out

- RKNN, MPP, RGA, V4L2, DRM, RTSP, shared memory and JPEG code: wrappers over libraries whose source is not here.
- gRPC and protobuf transport, TLS, the async servicer, SQLite stores, cloud upload, model inference, prompts, reports,
  dashboards, metrics and logging: I/O or glue.
- `DeviceSessionManager`, `AlertManager`, `EventBus`, `VideoRecorder`, `AdaptiveFPSController`, `NPUScheduler`,
  `MultiModelManager`, `ABTestManager`, `DmaBufSim`: each settles with one short invariant.
- `MemoryPool`, `ModelRegistry`, `ModelCascade`: their natural invariants do not hold of the code.
- Floating-point rounding, infinities and NaN; overflow of counters, ids and of the shifted back-off, which needs an initial
  back-off of 65536 ms or more.
- ConfigRoundTrip.ParseUndoesPrint: lists stand under a named section and printed keys and values hold no comment sign, outer
  quotes or blanks, and keys no colon; `TopLevelDashRestarts` and `QuotedValueSurvivesIff` say what happens otherwise. The typed
  getters, `Has` and `Set` are not modelled.
- Delivery.GRPCClient.StreamDetection: one sender thread, no concurrent `Disconnect` or `FlushStream`, serialisation that round
  trips, and room for at least one entry in the queue; sleeping is not modelled.
- ConfigTopLevel.TopLevelListLoadsIff: continuation lines have values; one without a value opens a section, as
  `ConfigRoundTrip.StepHeader` says, and later items belong to it.
- DetectionCache.DetectionCache.IsNovel: the clock is read before the lock is taken; the order of several threads between the
  two is not modelled.
- ReId.ReIDEngine.RegisterFeature: a timestamp of 0 stands for the current time in the code; here the caller resolves it. The
  printed form of track ids and `list_tracks` are not modelled.
- Anomalies.AnomalyBaseline.LearnBaseline: the query of the store is a parameter.
- Yolov8Postprocess.Process: the number of bins is not negative; what happens after the buffer is overrun is undefined and not
  modelled.
- YoloPostprocess.Process: class names are a parameter; reading them from a file is not modelled.
- RateLimiter.TokenBucketRateLimiter.Allow: the lock makes calls atomic, so runs are sequences of calls.
- VlmRuns.RunsAreAccounted: retrieval context and conversation history are part of how an item ends, not modelled by
  themselves; cloud upload and guidance commands are modelled as one wait after the publication; a timed wait on the queue that
  is cancelled takes no item.
- ThreadPool.ThreadPool.BeginShutdown: a second, concurrent shutdown returns before the first has joined; only the first is
  claimed to wait.
- Periodicity, plain statistics and the store access of the time series engine: formulas or I/O without an invariant.
