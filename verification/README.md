# Orka, verified

A Dafny model of the parts of Orka that must agree with each other: the
residual-vector-quantisation decoder and its fast forms, the index and sidecar
codecs, the Lloyd k-means that learns codebooks, and the concurrent pack
pipeline. `dafny verify dfyconfig.toml` checks everything.

**One weight.** `Reference.Weight` says what one element of a packed tensor is:
the sum of its codebook gathers, then outliers and pillars written over it, then
the block scale, then salients written over it, then the low-rank term.
`DecodeLaws` says the same once more on the arrays of the entry. The
reference decoder, the C kernel, `VQLinear` (index tiers, bit planes, group-major
transposes, a CSR delta instead of overwrites), the CUDA and Triton kernels, the
row-lazy embedding and the GGUF export are each proved against it or against the
layer that is proved against it. `Dispatch.ServeTensor` puts the chain together,
from a manifest entry to the outputs of any forward, and
`TensorExport.ExportTensor` from an entry to an exported and permuted payload.

**Codecs.** The chunked bit stream equals single-shot packing, holds every bit of
every index in its place, and unpacks to each index modulo its width; words are
little-endian digit by digit; bit planes are read in constant time at
the sequential value; outliers survive sorting and delta coding; the int8
codebook takes the nearest code of every entry, and is a projection exactly where
its scales are.

**K-means.** `Lloyd` proves that an iteration balances every cluster around its
new centroid, which no codebook beats under that assignment, and never raises the
weighted objective; the numpy and torch loops, with their tiled argmin and sorted segment
sums, are methods proved to make exactly such iterations.

**Pack pipeline.** `PackModel` is a state machine of four threads, three bounded
queues, a byte budget and per-tensor barriers. Every reachable state keeps order,
budget and file contents; no state short of the end is stuck, and every run ends
but for idle polls.

Numbers are `real` or `int`. Rounding to fp16 and fp32 is the identity, except
in `Int8Codebook`, where the rounding of the scale is a parameter.

## What the code does not do

- A layer stored in bit planes loses its sparse correction once the raw buffers
  have moved into the cache. `Dispatch.ForwardPlaned` gives the exact condition;
  `Dispatch.PlanedCallTwice` shows it for every entry of two equally planed
  stages and every overwritten element, `Dispatch.DropsOutlier` on one entry.
- The one-token kernels scale a group by the block its first column is counted
  in, which is right for every layer exactly when the group divides the block
  (`KernelLayout.EveryBlockServedIff`); nothing checks that.
- The Triton launches pass three stages; a fourth is silently dropped, and the
  CUDA backends do not take such layers. The contract of
  `Dispatch.VqLinearForward` says what is computed for any stage count;
  `Tiles.EveryStageServedIff` says when nothing is dropped.
- `VQLinear` never reads the low-rank and pillar sidecars.
  `VqBuild.ServedIsReference` says exactly where that changes an element;
  `VqBuild.UnservedSidecars` builds a layer of each kind that reads 0 for 1.
- The plain GGUF export writes no correction, so its dense reference is the
  served weight exactly when the correction is zero everywhere
  (`TensorExport.DequantLayer`, `TensorExport.DequantDropsOutlier`), and its
  16-bit indices lose rows of most codebooks above 32768
  (`TensorExport.EveryRowReadIff`).
- The other exporter's width `round(log2 k)` loses indices when it rounds down
  (`Exporter.WidthLosslessIff`, `Exporter.RoundedDownLosesIndices`).
- `row_permutation` answers with something that is not a permutation when the
  target repeats a row (`RowPermutation.FoundIsPermutation`).
- Int8 quantisation is said to recover its scale losslessly. It does exactly when
  each column's scale is the rounding of its largest level over 127
  (`Int8Codebook.RequantizeIff`); with fp16 scales that holds above the subnormal
  grid (`Int8Codebook.Fp16Projects`) and fails on it
  (`Int8Codebook.SubnormalScaleFails`).

## Model

| member | source | states |
|---|---|---|
| `Reference.DecodeTensor` | orka/pipeline/decode.py:97-188 | an entry decodes exactly when its sizes and positions fit, and element i is then the pointwise weight: stage sum, outliers, pillars, scale, salients, low-rank |
| `Reference.AddLowrank` | orka/pipeline/decode.py:44-53 | the low-rank product is added to the leading rows x cols elements only |
| `DecodeLaws.DecodableIff` | orka/pipeline/decode.py:97-188 | what can be decoded, on the arrays: an index per group within its codebook, stages of one length, positions inside the tensor, a scale per block, factors of the matrix's shape |
| `DecodeLaws.PlainElement` | orka/pipeline/decode.py:106-153 | an element nothing overwrites is the sum over the stages of entry i mod group of the codebook row its group's index selects, times the scale of its block |
| `DecodeLaws.OutlierElement` | orka/pipeline/decode.py:113-153 | the last outlier at a position replaces the sum and takes the block scale |
| `DecodeLaws.PillarElement` | orka/pipeline/decode.py:125-153 | the last pillar there replaces sum and outlier and takes the block scale |
| `DecodeLaws.SalientElement` | orka/pipeline/decode.py:168-182 | the last salient that addresses the element replaces everything, as stored |
| `DecodeLaws.LowrankUnit` | orka/pipeline/decode.py:44-53 | factors with single ones at (r, q) and (c, q) add 1 at row r, column c, and nothing elsewhere, for any shape and rank |
| `DecodeLaws.LowrankLinearInA` | orka/pipeline/decode.py:44-53 | the low-rank effect is linear in the first factor |
| `DecodeLaws.LowrankLinearInB` | orka/pipeline/decode.py:44-53 | and in the second |
| `CKernel.Dequantize` | kernel/orka_vq.c:18-120 | exactly when each error code is returned; otherwise one buffer, written in place and nowhere past its end, holds the reference weight at every position |
| `CKernel.KernelMatchesReference` | kernel/orka_vq.c:18-120 | for every tensor the reference decodes and the kernel can load, kernel and reference give the same weight at every position, stages of mixed group sizes included, a scalar first stage among them |
| `IndexCodec.PackIndices` | orka/core/_format.py:96-119 | packing in chunks of any multiple of 8 rows is packing in one shot, for every width; bit b of index i stands at bit i * width + b of the bytes, highest first, and zeros fill the last byte |
| `IndexCodec.UnpackIndices` | orka/core/_format.py:122-141 | unpacking in chunks is unpacking in one shot; field i of any stream is the number its bits spell, highest first, as int64; None when the stream is too short |
| `IndexCodec.UnpackOfPack` | orka/core/_format.py:96-141 | each index comes back modulo 2^bits, read as a signed 64-bit value |
| `IndexCodec.RoundTripExactly` | orka/core/_format.py:96-141 | the stream gives an index back exactly when it fits in its bits and in 63 bits |
| `IndexCodec.WriteIndices` | orka/core/_format.py:179-217 | which calls raise; the stream holds the bits of each index at odd widths, and at others byte b of word i is index i / 256^b mod 256 in the narrowest of 1, 2, 4 and 8 bytes; it is compressed as asked, or where that is shorter |
| `IndexCodec.ReadIndices` | orka/core/_format.py:405-430 | exactly which streams are read; word i is then the sum of its bytes times powers of 256, the lowest first, and a packed field the number its bits spell |
| `IndexCodec.ReadInvertsWrite` | orka/core/_format.py:179-217 | reading back what was written returns every in-range index, for packed and word-sized widths, raw or compressed by any invertible coder |
| `ByteOrder.WordsHold` | orka/core/_format.py:73-78 | byte b of word i of the written bytes is digit b of number i in base 256 |
| `ByteOrder.WordsOf` | orka/core/_format.py:424-430 | a byte string is n words exactly when it is n words long, and each word is the sum of its bytes by powers of 256 |
| `Planes.UnpackIndexPlanes` | orka/core/_format.py:166-176 | the planes are read exactly when the high plane covers the count, and element i is the low byte plus 256 times field i |
| `Planes.PlaneOfPack` | orka/core/_format.py:144-176 | packed planes hold each index modulo the bits they keep |
| `Planes.PlanesHold` | orka/core/_format.py:144-163 | byte i of the low plane is index i modulo 256, and the high plane holds the bits of index i / 256, highest first |
| `Planes.SequentialIs` | orka/core/_format.py:166-176 | the reader's index is the low byte plus 256 times the number the high field spells |
| `Planes.PlanesLosslessIff` | orka/core/_format.py:144-163 | planes lose nothing if and only if every index fits in the bits they keep |
| `PlaneReads.FastReadsAreSequential` | orka/inference/cuda_planes.py:43-47 | the kernels' byte, shift and mask and the vectorised unpack both give the sequential field, for every stream length and position |
| `PlaneReads.PlanedRoundTrip` | orka/inference/_vq_core.py:172-189 | an index stored in planes is what both fast readers return |
| `Sorting.ArgsortCorrect` | orka/codebook/_kmeans_torch.py:249-253 | the argsort is sorted, stable and reaches every row |
| `Sorting.Segments` | orka/codebook/_segsum_kernel.py:36-45 | position j of the sorted order lies between the offsets of segment r exactly when its key is r |
| `Outliers.WriteOutliers` | orka/core/_format.py:459-483 | values in the order of the stably sorted positions; the gaps between them as non-negative little-endian words, no narrower word holding them all, compressed where shorter; reading the file gives the sorted list |
| `Outliers.ReadOutliers` | orka/core/_format.py:486-502 | a file is read exactly when its codec byte is known and it holds one word per value; positions are the running sums of its little-endian words in 64 bits, non-decreasing while they fit, beside the values as stored |
| `Outliers.ReadInvertsWriteOutliers` | orka/core/_format.py:459-502 | reading gives the stably sorted list back |
| `Outliers.ScatterSurvivesStorage` | orka/core/_format.py:459-502 | scattering what was read equals scattering the original list in order, duplicate positions included |
| `CsrMatrix.FromEntriesAt` | orka/inference/_vq_build.py:144-159 | sort by row, count, cumulate: the CSR holds at every place what the entries add there |
| `CsrMatrix.FromEntriesSparse` | orka/inference/_vq_build.py:144-159 | distinct positions give row pointers and columns of the right shape with no place stored twice |
| `CsrMatrix.RowProduct` | orka/inference/cuda_decode.py:61-71 | a walk over one row's slice is the product of that row of the sparse matrix |
| `VqLayer.StoreRoundTrip` | orka/inference/_vq_core.py:46-82 | no index tier (byte, 16-bit, 32-bit, planes) loses an index of the codebook that selects it |
| `VqLayer.TierIff` | orka/inference/_vq_core.py:46-72 | 10-bit planes for 513 to 1024 rows, 12-bit for 2049 to 4096, and otherwise bytes up to 256 and 16 bits up to 32768 |
| `VqLayer.TransposedSlot` | orka/inference/_vq_build.py:162-188 | the group-major slot of a piece holds what its row-major place held |
| `VqLinear.VQLinear.StoreCorrection` | orka/inference/_vq_build.py:150-159 | registering a CSR makes it the layer's correction and leaves the payload alone |
| `VqLinear.VQLinear.CorrectionSparse` | orka/inference/_vq_core.py:111-139 | the first call moves the buffers into the cache; the correction is the same before and after |
| `VqLinear.VQLinear.SaveStateDict` | orka/inference/_vq_core.py:141-170 | a state dict carries the correction wherever it lives |
| `VqLinear.VQLinear.ReconstructWeight` | orka/inference/_vq_core.py:191-231 | the dense weight is payload plus correction at every position, in either layout |
| `VqBuild.FinalValues` | orka/inference/_vq_build.py:104-142 | the dictionary holds, for each overwritten position, the value the reference decoder ends with, salients winning over outliers |
| `VqBuild.BuildCsrCorrection` | orka/inference/_vq_build.py:63-159 | adding the CSR deltas gives what overwriting outliers before and salients after the scale gives |
| `VqBuild.ToGroupMajor` | orka/inference/_vq_build.py:162-188 | buffers are transposed in place exactly when no stage is planed and rows are whole groups and blocks |
| `VqBuild.GroupMajorSame` | orka/inference/_vq_build.py:162-188 | the transposed buffers stand for the same dense weight |
| `VqBuild.BuildVqLinear` | orka/inference/_vq_build.py:191-249 | the built layer serves the reference weight at every position, low-rank and pillars apart; its buffers stand for the stages and scales in the tier each codebook size selects, and it holds a correction exactly when the entry keeps something out of the stages |
| `VqBuild.ServedIsReference` | orka/inference/_vq_build.py:63-80 | the reference element is the served one plus the effect of the pillars plus the low-rank term; the base weights agree exactly under a salient, without a pillar, or where the pillar equals what it replaces |
| `VqBuild.UnservedSidecars` | orka/inference/_vq_build.py:63-80 | two built layers, one entry with a pillar and one with a rank-1 term, read 0 where the reference decode gives 1 |
| `KernelLayout.KIndexIsIndex` | orka/inference/triton_kernels.py:44-96 | group-major, row-major and plane addresses all read the layer's index |
| `KernelLayout.GroupsMakeRow` | orka/inference/cuda_decode.py:34-58 | where groups divide blocks and blocks rows, scaled codeword dots over the groups of a row add up to the dense row product |
| `KernelLayout.TilesMakeRow` | orka/inference/triton_kernels.py:246-333 | where groups and blocks divide rows, the tiles of a row add up to the dense row product |
| `KernelLayout.EveryBlockServedIff` | orka/inference/triton_kernels.py:64-75 | the one-token kernels compute every row of every layer of given group and block sizes if and only if the group divides the block |
| `SplitK.GemvThread` | orka/inference/cuda_decode.py:39-57 | one thread adds exactly the groups between its bounds, none when they cross |
| `SplitK.SlicesCover` | orka/inference/cuda_decode.py:39-58 | the slices cover each group exactly once for every split |
| `SplitK.GemvF4` | orka/inference/cuda_decode.py:34-58 | the grid, adding in any order, leaves the dense product in y for every split |
| `Warp.WarpReduce` | orka/inference/cuda_decode.py:68-70 | the halving shuffle leaves the sum of all 32 lanes in lane 0 |
| `Warp.LanesTotal` | orka/inference/cuda_planes.py:36-74 | striding by 32 visits every element once: the lane sums add up to the whole |
| `Warp.GemvPlanes` | orka/inference/cuda_planes.py:26-74 | the planed kernel computes the group sum of each row on row-major layers |
| `Warp.SpmvWarp` | orka/inference/cuda_decode.py:61-71 | every row receives its sparse product once |
| `Tiles.TritonDecode` | orka/inference/triton_kernels.py:44-195 | the decode kernels compute the group sum of each row over the stages they are passed, in either layout and for any block size |
| `Tiles.EveryStageServedIff` | orka/inference/triton_kernels.py:97-122 | the kernels serve every element of every layer of n stages if and only if n is at most 3 |
| `KernelLayout.TileWeightIsWeight` | orka/inference/triton_kernels.py:246-333 | the tile gathers the dense weight |
| `Tiles.GemmToken` | orka/inference/triton_kernels.py:246-410 | the tiled GEMM computes the tile sum of each row over the stages it is passed for any K step, the tail masked |
| `Tiles.DDense` | orka/inference/cuda_decode.py:95-107 | the dense expansion writes every element once with the layer's weight |
| `Dispatch.VqLinearForward` | orka/inference/dispatch.py:22-129 | whatever backends load, run or fail, a forward on a non-planed layer is the kernel product of its first three stages plus the correction once plus bias, which is the dense product unless a single token meets a group that does not divide the block; a zero token gives the bias itself; the layer still serves the same weight |
| `Dispatch.Run` | orka/inference/dispatch.py:57-129 | any sequence of calls, a state dict after each: every output carries the correction exactly once, every zero token comes out as the bias, and every state dict holds the same correction |
| `Dispatch.ForwardPrefill` | orka/inference/cuda_decode.py:253-295 | prefill by one dense expansion plus the sparse delta gives the same outputs, the bias on zero tokens |
| `Dispatch.ForwardPlaned` | orka/inference/_vq_core.py:257-334 | on any planed layer the correction is applied exactly when the stated guard holds before the call; the product is the kernels' where a kernel serves and the dense one otherwise; a zero token gives the bias itself |
| `Dispatch.OutputsShowBias` | orka/inference/dispatch.py:75-127 | on every path a zero token comes out as the bias, entry by entry, and as zeros without one |
| `Dispatch.BiasDifference` | orka/inference/dispatch.py:75-127 | on every path and token the outputs of two layers that differ in their bias alone differ by the biases |
| `Dispatch.SecondPlanedCallDropsCorrection` | orka/inference/_vq_core.py:257-334 | two calls on a planed layer with a correction: the first applies it, the second does not |
| `Dispatch.PlanedCallTwice` | orka/inference/_vq_core.py:257-334 | on the layer built from any entry of two equally planed stages that overwrites something, a unit input reads each element as served on the first call and as the bare stages on the second |
| `Dispatch.DropsOutlier` | orka/inference/_vq_core.py:257-334 | one outlier of 1 over zero stages of 1024 codewords: the first call gives 1, the second 0 |
| `Dispatch.CorrectionVisible` | orka/inference/_vq_core.py:257-334 | a dropped correction changes the output on some input |
| `Dispatch.ServeTensor` | orka/inference/_vq_build.py:191-249 | building a layer of up to three stages from an entry and running any calls gives the reference weight times the input plus bias, for a single token where the group divides the block; for any number of stages zero tokens give the bias |
| `Dispatch.ReferenceReadsColumn` | orka/inference/_vq_build.py:191-249 | those outputs on a unit token are one column of the reference weight plus the bias |
| `Dispatch.ReferenceLinear` | orka/inference/_vq_build.py:191-249 | and they are linear in the token, bias aside |
| `Dispatch.ReferenceBiasDifference` | orka/inference/dispatch.py:75-127 | two biases on one tensor and token give outputs that differ by the biases |
| `Embedding.Forward` | orka/inference/vq_embedding.py:140-171 | any ids from -vocab to vocab - 1 get their rows, negative ones counted from the end, each distinct id decoded once; others raise |
| `Embedding.ServedRowIsReference` | orka/inference/vq_embedding.py:84-171 | a served row is the row of the reference decode |
| `Embedding.RefusedIff` | orka/inference/vq_embedding.py:34-53 | a table is refused exactly for a row that is not whole groups and blocks, a sidecar, or stages of another group size |
| `Embedding.StraddlesIff` | orka/inference/vq_embedding.py:40-46 | some group or block of two rows or more holds elements of two rows if and only if it does not divide the row |
| `Embedding.Lookup` | orka/inference/vq_embedding.py:34-137 | the table is served exactly when the eligibility test passes, an id outside the table raises, and otherwise every looked-up row is the reference row |
| `Distances.Expand` | orka/codebook/_kmeans_numpy.py:136-140 | norm plus norm minus twice the dot product is the squared distance |
| `Distances.WeighedDistance` | orka/codebook/_kmeans_numpy.py:106-111 | plain distance on vectors scaled by the roots is weighted distance |
| `Distances.DistanceByDimension` | orka/codebook/_kmeans_numpy.py:106-111 | each dimension adds its weight times the squared gap |
| `KMeans.NumpyAssign` | orka/codebook/_kmeans_numpy.py:101-146 | for any chunk size and any supplied row norms each row gets its nearest centroid, lowest index first; the mean error when the norms are the rows' own; which inputs raise |
| `KMeans.AssignErrorIff` | orka/codebook/_kmeans_numpy.py:101-146 | exactly which assignments raise |
| `KMeans.CentroidSums` | orka/codebook/_kmeans_numpy.py:150-172 | weighted sums per cluster and dimension, and which inputs raise |
| `KMeans.SumsErrorIff` | orka/codebook/_kmeans_numpy.py:150-162 | exactly which calls raise |
| `KMeans.LowerMinDists` | orka/codebook/_kmeans_numpy.py:63-73 | after each round every row holds its distance to the nearest candidate so far |
| `KMeans.ParallelInit` | orka/codebook/_kmeans_numpy.py:11-98 | exactly k seeds, each a row of the data, whatever is drawn; rows at distinct indices above the oversampling limit |
| `KMeans.LearnCodebook` | orka/codebook/_kmeans_numpy.py:176-231 | the error cases; otherwise min(size, n) centroids, a nearest assignment and its mean error, reached in the passes asked for, three at most when the codebook is nearly as large as the data; every codebook of the run balances the clusters of the state before it |
| `KMeans.LearnErrorIff` | orka/codebook/_kmeans_numpy.py:176-225 | exactly which calls learn a codebook |
| `KMeans.PassesIff` | orka/codebook/_kmeans_numpy.py:192-194 | all passes asked for, or three, by the nine tenths rule |
| `KMeans.LearningImproves` | orka/codebook/_kmeans_numpy.py:207-231 | what is learned costs no more than any assignment to the initial codebook, nor than any earlier iteration |
| `Lloyd.MoveLowers` | orka/codebook/_kmeans_numpy.py:215-225 | moving clusters with mass to their means and leaving the others does not raise the objective, whatever the sample weights |
| `Lloyd.MovedRecentres` | orka/codebook/_kmeans_numpy.py:215-225 | in every cluster of positive sample weight the weighted residuals around the new centroid sum to 0 in every dimension; the other clusters keep their centroid |
| `Lloyd.RecentredCheapest` | orka/codebook/_kmeans_numpy.py:215-225 | with non-negative samples no codebook of that size costs less than such a codebook under the same assignment |
| `Lloyd.TwoRowsMeet` | orka/codebook/_kmeans_numpy.py:215-225 | rows 0 and 2 in one cluster move it from 0 to 1, and to 3/2 when the second counts three times |
| `Lloyd.ReassignLowers` | orka/codebook/_kmeans_numpy.py:211-214 | a nearest assignment costs no more than any other when the sample weights are not negative |
| `Lloyd.RunDescends` | orka/codebook/_kmeans_numpy.py:207-231 | over any number of iterations the objective never rises |
| `AssignKernel.PadKeepsDot` | orka/inference/_assign_kernel.py:66-76 | zero padding changes no product |
| `AssignKernel.RowArgmin` | orka/inference/_assign_kernel.py:45-61 | the running minimum over tiles of any width is the first of the least scores |
| `AssignKernel.TritonAssign` | orka/inference/_assign_kernel.py:30-84 | the fused kernel on padded data returns true nearest centroids, lowest index first, for any block sizes |
| `AssignKernel.AssignmentsAgree` | orka/inference/_assign_kernel.py:87-92 | kernel and fallback, and any chunking, give the same indices |
| `KMeansTorch.TorchAssign` | orka/codebook/_kmeans_torch.py:155-225 | the giant and the ordinary path return the weighted nearest centroids and the same mean error, none on an empty matrix |
| `SegmentSum.SegmentIsGroup` | orka/codebook/_segsum_kernel.py:36-52 | a contiguous slice of the sorted order sums to its group |
| `SegmentSum.DetSegmentSum` | orka/codebook/_kmeans_torch.py:228-266 | sort, offsets and segment sums, fused and tiled or gathered and reduced, give the direct group-by sums and sizes |
| `SegmentSum.TotalsConserved` | orka/codebook/_kmeans_torch.py:228-266 | the grouped sums add up to the sum of all values, the sizes to the number of rows |
| `KMeansTorch.LearnCodebook` | orka/codebook/_kmeans_torch.py:309-429 | the error cases; otherwise the same iterations as the numpy loop from the rows given or k rows of the data, every codebook balancing the clusters before it; it stops early after the first pass but the very first that moved no entry by the tolerance, and only then |
| `KMeansTorch.LearnErrorIff` | orka/codebook/_kmeans_torch.py:309-345 | exactly which calls learn a codebook |
| `StageCloseOut.Candidate.CloseBlocked` | orka/pipeline/pack_pipeline.py:82-119 | for any block size: decoded sum grows by the gather, residual is orig minus it in its own storage, orig untouched although it may start as the residual |
| `StageCloseOut.Candidate.CloseWhole` | orka/pipeline/pack_pipeline.py:433-445 | the ordinary path leaves the same sum and residual |
| `StageCloseOut.Candidate.CloseAll` | orka/pipeline/pack_pipeline.py:428-445 | after all stages, on either path, the sum is that of all gathers and orig is what it was |
| `StageCloseOut.SumIsStageSum` | orka/pipeline/pack_pipeline.py:82-119 | the packer's decoded sum is the stage sum the decoder computes at the same position, vector and scalar stages alike |
| `PackSafety.OrderKept` | orka/pipeline/pack.py:139-349 | every step keeps queues, counters and manifest in checkpoint order |
| `PackSafety.BudgetKept` | orka/pipeline/pack_pipeline.py:53-79 | every step keeps the bytes out equal to the live reservations, within budget or one alone |
| `PackSafety.BudgetReleaseAgain` | orka/pipeline/pack_manifest.py:187-218 | the second release of a candidate changes nothing |
| `PackStream.ReplayFile` | orka/core/_format.py:220-227 | after any writes a file holds its last payload under the encoding its first write recorded |
| `PackFiles.WriterKept` | orka/_runtime/io.py:31-50 | everything submitted is executed or pending, in one fixed order |
| `PackFiles.BarrierMeansWritten` | orka/pipeline/pack_pipeline.py:192-223 | once a tensor's barrier has run nothing of it is pending and each of its files is final |
| `PackFiles.EntriesKept` | orka/pipeline/pack_pipeline.py:198-214 | every step keeps recorded entries true of the files |
| `PackProgress.Reachable` | orka/pipeline/pack.py:658-755 | the invariant holds in every state of every run |
| `PackProgress.ManifestFaithful` | orka/pipeline/pack_pipeline.py:192-223 | at any time every entry stands in checkpoint order, its recorded encodings decode the bytes last written, and none of its writes is pending |
| `PackProgress.FinishedComplete` | orka/pipeline/pack.py:794-803 | a finished run has every candidate in the manifest and gave every reservation back exactly once |
| `PackProgress.NoneLostAtExit` | orka/pipeline/pack.py:658-664 | the loop leaves only after every candidate was produced and handed over |
| `PackProgress.FlushSeesAll` | orka/_runtime/io.py:49-55 | a flush passes only when all submitted writes are on disk |
| `PackProgress.BudgetRespected` | orka/pipeline/pack_pipeline.py:65-79 | in every reachable state the budget's figure is the sum of live reservations, at most the budget unless one non-empty reservation is alone, and the others were released once each |
| `PackProgress.WaitsOnlyWhenFull` | orka/pipeline/pack_pipeline.py:69-73 | in every reachable state a ready producer is held up exactly when live bytes and the next candidate together exceed the budget, and a hand-over exactly when the queue before it is full |
| `PackProgress.NeverStuck` | orka/pipeline/pack_pipeline.py:53-79 | no reachable state short of the end is a deadlock, even when one tensor exceeds the whole budget |
| `PackProgress.StepsDescend` | orka/pipeline/pack.py:658-664 | every step but an idle poll lowers one measure |
| `PackProgress.PollsAreNeverAlone` | orka/pipeline/pack.py:661-664 | while the loop polls an empty queue another thread can lower the work left |
| `PackProgress.RunsAreBounded` | orka/pipeline/pack.py:658-755 | a run is no longer than its initial measure and three steps per idle poll |
| `PackProgress.Completes` | orka/pipeline/pack.py:658-803 | from every reachable state some continuation finishes packing |
| `RowPermutation.RowPermutation` | scripts/export_gguf_orka.py:191-215 | an answer exactly when shapes match, source rows are distinct and every target row occurs; target row i is then source row perm[i] |
| `RowPermutation.FoundIsPermutation` | scripts/export_gguf_orka.py:191-215 | the answer is a bijection if and only if the target repeats no row |
| `RowPermutation.RepeatedTargetRow` | scripts/export_gguf_orka.py:191-215 | a repeated target row yields an answer that is no permutation |
| `RowPermutation.PermRows` | scripts/export_gguf_llama.py:63-72 | the triple loop fills every position an even head size has with the row it must receive |
| `RowPermutation.OldRowOf` | scripts/export_gguf_llama.py:63-72 | row 2j + s of a head receives its old row s * half + j |
| `RowPermutation.RopeIsPermutation` | scripts/export_gguf_llama.py:63-72 | for every head count and even head size the table is a bijection |
| `Exporter.WidthLosslessIff` | scripts/export_gguf_orka.py:160-165 | every index of a k-row codebook survives the export if and only if k is at most 256 or at most 2 to the rounded width |
| `Exporter.PowerOfTwoLossless` | scripts/export_gguf_orka.py:160 | a power of two rounds to its own exponent and all its indices survive |
| `Exporter.RoundedDownLosesIndices` | scripts/export_gguf_orka.py:160-165 | with 320 rows, index 319 is read back as 63 |
| `Exporter.PermutedSum` | scripts/export_gguf_orka.py:178-180 | summing in permuted order is summing, so the rebuilt row pointers end where the old ones did |
| `Exporter.PermuteCsr` | scripts/export_gguf_orka.py:177-186 | count, cumsum and copy place old row perm[i] at row i, within the old array length |
| `Exporter.RebuiltMatrix` | scripts/export_gguf_orka.py:177-186 | the rebuilt CSR is well formed and is the old matrix with its rows permuted |
| `Exporter.SidePayload` | scripts/export_gguf_orka.py:151-188 | what a reader decodes from the payload at (m, c) is the layer's corrected weight at (perm[m], c), for every permutation and both layouts; low bytes and scales stand row-major, row m those of row perm[m], and codebooks unchanged |
| `Exporter.DequantLinear` | orka/artifact/export_gguf.py:32-46 | the export's dense reference is the uncorrected payload of any aligned layer, planed ones included, row-major or group-major |
| `TensorExport.ExportTensor` | scripts/export_gguf_orka.py:151-188 | building a layer from an entry, exporting it with any row permutation at the rounded widths and reading the payload gives the permuted reference weight, for every codebook size whose width loses nothing |
| `TensorExport.DequantLayer` | orka/artifact/export_gguf.py:32-79 | the dense reference is the reconstructed weight of a layer if and only if its correction is zero everywhere |
| `TensorExport.DequantTensor` | orka/artifact/export_gguf.py:32-79 | for an entry the dense reference is the stages alone, which is the reference base weight when nothing is kept out of them |
| `TensorExport.DequantDropsOutlier` | orka/artifact/export_gguf.py:70-79 | an entry with one outlier of 1 is exported as 0 |
| `TensorExport.EveryRowReadIff` | orka/artifact/export_gguf.py:72-73 | every row of a k-row codebook is read back through the 16-bit index if and only if k is at most 32768 or is 65536 |
| `Int8Codebook.LargestAtTop` | orka/core/_format.py:257-272 | the largest entry of a non-zero column codes to +-127 if and only if it exceeds 126.5 steps of the rounded scale |
| `Int8Codebook.CodeIsNearest` | orka/core/_format.py:271 | the code of an entry is the nearest of -127 to 127 at its scale, the even one of two, within half a step inside 127 steps and +-127 with the entry's sign beyond |
| `Int8Codebook.EntryNearest` | orka/core/_format.py:257-272 | so it is for every entry of a codebook, and the stored entry is code times scale |
| `Int8Codebook.EntryWithinHalf` | orka/core/_format.py:257-272 | an entry within 127 steps is stored to within half a step |
| `Int8Codebook.EntryScale` | orka/core/_format.py:266-270 | a column's scale is its largest magnitude over 127, or 1 for zeros, rounded to storage |
| `Int8Codebook.ColumnProjection` | orka/core/_format.py:257-272 | then requantising the dequantised column returns the same scale and codes |
| `Int8Codebook.QuantizeProjects` | orka/core/_format.py:257-342 | quantising the dequantised codebook is the same quantised codebook |
| `Int8Codebook.FineProjects` | orka/core/_format.py:257-342 | both hold for every rounding that is idempotent, fixes 1 and errs by less than 1/254 |
| `Int8Codebook.ColumnGivenBackIff` | orka/core/_format.py:257-272 | a stored column gets its scale and codes back if and only if its scale is the rounding of its largest level over 127 |
| `Int8Codebook.RequantizeIff` | orka/core/_format.py:257-342 | a stored codebook is given back as it is if and only if that holds of every column |
| `Int8Codebook.Fp16Projects` | orka/core/_format.py:257-342 | with fp16 scales both quantisations agree on every codebook whose columns are zero or exceed 127 times 126.5 subnormal steps |
| `Int8Codebook.SubnormalScaleFails` | orka/core/_format.py:257-272 | with fp16 scales a column of 190.627 subnormal steps gets scale 2 steps, then 1 |

## Left out

- Rotations, AWQ column scaling, error compensation, EM-AQ, scale refinement and bit allocation.
- fp16 and fp32 rounding outside the int8 scale; the fp16 dot products of the assignment kernel are exact here.
- GPU memory ordering, launch configuration and autotuning; atomic adds are sums in any order, launch failures are booleans of the environment.
- zlib is an abstract invertible coder; hashing, JSON, safetensors and GGUF containers are not modelled, and row hashes stand for row contents.
- Exception paths of the producer and of the finalizer: runs in which nothing raises.
- The shared-codebook (batched) mode of the packer and its sampling budget; the faiss k-means.
- K-means seeding probabilities: draws are arbitrary, restricted only to rows of positive distance.
- `KMeans.ParallelInit`: the reduction of too many candidates draws arbitrary candidates, since which ones it keeps is random.
- Tensors without any stage: the loaders always supply one.
- `KMeansTorch.TorchAssign`: an empty codebook, on which the library's argmin raises.
- `CKernel.Dequantize`: every stage must decode to the same padded length, which the kernel's header asks of its caller.
- `StageCloseOut.Candidate.CloseBlocked`: arrays are distinct objects or the same object; views that share storage partially are not modelled.
- `Dispatch.VqLinearForward`: rows of whole groups and blocks, which the dispatcher asserts; a single token on blocks smaller than a group divides by zero in the kernels.
- `Int8Codebook.RequantizeIff`: for positive scales; a column whose scale rounds to zero is divided by zero.
- Bit operations `lo | hi << 8` are written `lo + 256 * hi`; the operands share no bit.
- The CLI, configuration, evaluation, integrations with other runtimes, and the merge and container tools.
