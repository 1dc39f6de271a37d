# MNIST trainer core, modelled in Dafny

This project models the core of a small Kotlin program that trains a fully
connected sigmoid network on the MNIST handwritten digits. It covers three
parts and proves properties of each.

- **The IDX reader** (`IDX.kt`): the image file and the label file as byte
  sequences, each read through a cursor.
  - `Idx.Open` runs the header checks of `init`. Each magic number is a
    big-endian 32-bit value: 2051 for images, 2049 for labels.
  - Count, rows and columns are then read from the image stream only. The
    label stream's own count field is never skipped, so the label cursor sits
    at byte 4 and the first "label" returned is the first byte of that count.
    The model keeps this behaviour.
  - `Next` reads one label byte and then `rows * cols` pixel bytes (in 32-bit
    `Int` arithmetic), each passed through `ubyte`.
  - Java's `EOFException` becomes the error `EndOfFile`. A negative pixel
    count becomes `NegativeArraySize`.
  - `HasNext` looks only at the image stream.
- **The network** (`Network.kt`): weight matrices as lists of rows of reals.
  The logistic function is a parameter `sigma` about which nothing is assumed,
  so what is proved is structure:
  - the topology `initializeWeights` builds;
  - the range of the initial weights;
  - the shapes of every layer, pre-activation and error term in `train`;
  - that `train` keeps every matrix's shape;
  - that the `fold` in `calculate` is the last layer of `train`'s forward loop;
  - the first-maximum `best`, the `correct` count, `copy` and `with`.

  `train` is a class method that updates its `weights` field. Its forward and
  backward loops fill the arrays `layers`, `accumulated` and `errors`, and the
  `mapIndexed` update builds the new weight list as a sequence, one matrix
  appended per transition. Each loop is proved against a function that defines
  the layer, error term or updated matrix.
- **The overseer** (`Overseer.kt`): `prepareData` and the `train` session.
  - `prepareData` turns the records into pixel rows and one-hot label rows and
    counts them in the shared `DataHolder`. Its result is proved equal to a
    function of the two files (`Prepared`).
  - The session is proved equal to `Training.Drive`, a function of its inputs.
    Those inputs are each epoch's shuffle, when the user's stop flag is seen
    set, and what the end-of-epoch test reads. For each run, `Drive` gives:
    - every call the session makes of `network.train`, as a list of
      `TrainCall` values;
    - why the session ended;
    - the `epoch` and `iteration` counters it left in the holder;
    - the stop flag as the session last read it.
  - The network's weights at the end are the initial weights trained on those
    calls in order (`TrainAll`).
  - How one epoch is cut into batches lives in `Batching`, independent of the
    network.

Behaviour worth knowing, kept as the code has it:
- A `batchSize` of 1 or less behaves as 1 (`Batching.BatchLimit`).
- The stop flag is checked before every example, not every batch. A stopped
  epoch never trains its pending partial batch.
- The end-of-epoch test also reads the stop flag, not only the test
  recognition rate and cost.
- `iteration` is set to the batch number on each full batch. An epoch with no
  full batch therefore leaves it where it was.
- A label byte of 10 or more gives an all-zero label row.
- `for (j in 1..epochLimit)` runs nothing when `epochLimit < 1`.

- `train` returns with the stop flag still set when the user stopped it, or
  when the end-of-epoch test read it set.

Modules, one per file:
- `Wrappers`: `Option` and `Result`.
- `Collections`: Kotlin's `zip` and `flatten` on sequences, and the uniqueness
  of division with remainder.
- `Matrices`: the matrix operations the network takes from its linear-algebra
  library.
- `IdxFormat`: `IDX.kt`.
- `NeuralNetwork`: `Network.kt`.
- `Batching` and `Training`: the epoch and session logic of `Overseer.train`.
- `Overseer`: `Overseer.kt`, with its `DataHolder`.

## Model

| member | source | states |
|---|---|---|
| IdxFormat.Signed | src/main/kotlin/lv/tti/neuralnetwork/api/idx/IDX.kt:38 | `readByte` yields a signed byte in [-128, 128) congruent to the stored byte modulo 256 |
| IdxFormat.UByte | src/main/kotlin/lv/tti/neuralnetwork/api/idx/IDX.kt:43 | `ubyte` maps every byte into 0..255: non-negative bytes unchanged, negative bytes plus 256 |
| IdxFormat.UByteOfSigned | src/main/kotlin/lv/tti/neuralnetwork/api/idx/IDX.kt:38-43 | a byte read signed and passed through `ubyte` is its unsigned value, so labels and pixels are the file's bytes |
| IdxFormat.Wrap32 | src/main/kotlin/lv/tti/neuralnetwork/api/idx/IDX.kt:39 | `Int` arithmetic: the result is a 32-bit value congruent to the exact value modulo 2^32, and equals it when it fits |
| IdxFormat.ReadInt | src/main/kotlin/lv/tti/neuralnetwork/api/idx/IDX.kt:24-26 | `readInt` succeeds exactly when four bytes remain and yields a 32-bit value |
| IdxFormat.ReadEncoded | src/main/kotlin/lv/tti/neuralnetwork/api/idx/IDX.kt:24-26 | reading back the four big-endian bytes of any 32-bit int gives the int |
| IdxFormat.EncodeRead | src/main/kotlin/lv/tti/neuralnetwork/api/idx/IDX.kt:24-26 | encoding the int read from four bytes gives those bytes back |
| IdxFormat.ReadIntIs | src/main/kotlin/lv/tti/neuralnetwork/api/idx/IDX.kt:45-46 | a stream reads as int v at a position exactly when its next four bytes are v's encoding |
| IdxFormat.MagicBytes | src/main/kotlin/lv/tti/neuralnetwork/api/idx/IDX.kt:10-11 | 2051 and 2049 are stored as 00 00 08 03 and 00 00 08 01 |
| IdxFormat.CheckMagicNumber | src/main/kotlin/lv/tti/neuralnetwork/api/idx/IDX.kt:45-47 | the check passes exactly when the four bytes are the magic number's encoding; it fails with end of file exactly when fewer than four bytes remain |
| IdxFormat.ParseHeader | src/main/kotlin/lv/tti/neuralnetwork/api/idx/IDX.kt:21-27 | the image magic is checked first, then the label magic, then 12 header bytes are needed; success exactly when the image stream has 16 bytes and both magic numbers match; count, rows and columns are image bytes 4-8, 8-12 and 12-16; a header never fails for a negative size |
| IdxFormat.ImageMagicFirst | src/main/kotlin/lv/tti/neuralnetwork/api/idx/IDX.kt:22-23 | with a wrong or short image magic the header fails whatever the label stream holds |
| IdxFormat.Unsigned | src/main/kotlin/lv/tti/neuralnetwork/api/idx/IDX.kt:39 | `n` pixel values, each in 0..255 and equal to the byte at its offset |
| IdxFormat.RecordAt | src/main/kotlin/lv/tti/neuralnetwork/api/idx/IDX.kt:37-41 | the k-th record's label lies in 0..255 and it has exactly `n` pixels in 0..255 |
| IdxFormat.ReadAll | src/main/kotlin/lv/tti/neuralnetwork/api/idx/IDX.kt:34-41 | reading every record, when it succeeds, yields at most one record per unread label byte |
| IdxFormat.ReadCount | src/main/kotlin/lv/tti/neuralnetwork/api/idx/IDX.kt:34-41 | the number of records read before reading stops, whether it stops at the end or at an error: at most the unread label bytes, and the record count when reading succeeds |
| IdxFormat.ReadCountStops | src/main/kotlin/lv/tti/neuralnetwork/api/idx/IDX.kt:34-41 | after m records, the next ReadCount records lie inside both files, and reading stops there because the image stream is used up, the label stream is, or the next record's pixels do not fit |
| IdxFormat.ReadAllRecord | src/main/kotlin/lv/tti/neuralnetwork/api/idx/IDX.kt:37-41 | reading to the end after m records returns, as its k-th record, label byte 4 + m + k and pixel bytes 16 + (m + k) n to 16 + (m + k + 1) n |
| IdxFormat.ReadAllExhausts | src/main/kotlin/lv/tti/neuralnetwork/api/idx/IDX.kt:34 | when reading to the end succeeds with a positive pixel count, the records use up the image stream exactly |
| IdxFormat.Idx.PixelCount | src/main/kotlin/lv/tti/neuralnetwork/api/idx/IDX.kt:39 | `numberOfCols * numberOfRows` as a 32-bit value congruent to the exact product |
| IdxFormat.Idx.Open | src/main/kotlin/lv/tti/neuralnetwork/api/idx/IDX.kt:21-27 | construction fails exactly when the header does, with the header's error; otherwise the fields hold the header and the cursors sit at image byte 16 and label byte 4 |
| IdxFormat.Idx.HasNext | src/main/kotlin/lv/tti/neuralnetwork/api/idx/IDX.kt:34 | true exactly when unread image bytes remain; the label cursor and the header count play no part |
| IdxFormat.Idx.Next | src/main/kotlin/lv/tti/neuralnetwork/api/idx/IDX.kt:37-41 | at the end of the labels: end of file with nothing consumed; otherwise the label cursor moves by 1; a negative pixel count is an error; too few image bytes is end of file with the image stream used up; on success the image cursor moves by the pixel count and the k-th call returns label byte 4 + k and pixel bytes 16 + k n up to 16 + (k + 1) n |
| Matrices.Biased | src/main/kotlin/lv/tti/neuralnetwork/api/network/Network.kt:97 | `biased` keeps the row count and adds one entry to every row |
| Matrices.BiasedRow | src/main/kotlin/lv/tti/neuralnetwork/api/network/Network.kt:97 | row i of `biased(m)` is 1.0 followed by row i of m |
| Matrices.Unbiased | src/main/kotlin/lv/tti/neuralnetwork/api/network/Network.kt:98 | `unbiased` has one row fewer, row k is the input's row k + 1, and putting the first row back restores the input |
| Matrices.Transpose | src/main/kotlin/lv/tti/neuralnetwork/api/network/Network.kt:32 | `.T` of a rows x cols matrix is cols x rows |
| Matrices.TransposeEntry | src/main/kotlin/lv/tti/neuralnetwork/api/network/Network.kt:32 | entry (j, i) of the transpose is entry (i, j) |
| Matrices.TransposeInvolution | src/main/kotlin/lv/tti/neuralnetwork/api/network/Network.kt:37 | transposing twice gives the matrix back |
| Matrices.Multiply | src/main/kotlin/lv/tti/neuralnetwork/api/network/Network.kt:24 | the product of an r x k and a k x c matrix is r x c |
| Matrices.MultiplyEntry | src/main/kotlin/lv/tti/neuralnetwork/api/network/Network.kt:24 | entry (i, j) of the product is row i of the left factor dotted with column j of the right |
| Matrices.Map | src/main/kotlin/lv/tti/neuralnetwork/api/network/Network.kt:88 | `mapMat` keeps the shape |
| Matrices.MapEntry | src/main/kotlin/lv/tti/neuralnetwork/api/network/Network.kt:88 | every entry of `mapMat(f)` is f of the entry |
| Matrices.ElementwiseEntries | src/main/kotlin/lv/tti/neuralnetwork/api/network/Network.kt:37 | difference, `emul`, scaling and division act entry by entry |
| NeuralNetwork.Sizes | src/main/kotlin/lv/tti/neuralnetwork/api/network/Network.kt:42-43 | the layer widths are the input size, each hidden size, then the output size |
| NeuralNetwork.Random | src/main/kotlin/lv/tti/neuralnetwork/api/network/Network.kt:46 | `random(rows, columns)` is a (rows + 1) x columns matrix: one extra row for the bias |
| NeuralNetwork.RandomInRange | src/main/kotlin/lv/tti/neuralnetwork/api/network/Network.kt:46 | draws in [0, 1) rescaled by r * 2 * 1.2 - 1.2 lie in [-1.2, 1.2) |
| NeuralNetwork.TransitionPairs | src/main/kotlin/lv/tti/neuralnetwork/api/network/Network.kt:42-43 | zipping the two width lists pairs each layer's width with the next one's |
| NeuralNetwork.InitializeWeights | src/main/kotlin/lv/tti/neuralnetwork/api/network/Network.kt:41-44 | one matrix per transition, |hiddenSizes| + 1 of them, matrix l of shape (sizes[l] + 1) x sizes[l + 1] |
| NeuralNetwork.InitialWeightsInRange | src/main/kotlin/lv/tti/neuralnetwork/api/network/Network.kt:41-46 | every initial weight lies in [-1.2, 1.2) when the random draws lie in [0, 1) |
| NeuralNetwork.PreActivation | src/main/kotlin/lv/tti/neuralnetwork/api/network/Network.kt:24 | `biased(layer) * weights` has the batch's rows and the next layer's width |
| NeuralNetwork.Step | src/main/kotlin/lv/tti/neuralnetwork/api/network/Network.kt:24-25 | one forward transition keeps the rows and takes the next layer's width |
| NeuralNetwork.Layer | src/main/kotlin/lv/tti/neuralnetwork/api/network/Network.kt:22-26 | `layers[0]` is the input unchanged, and `layers[k]` has the batch's rows and width sizes[k] |
| NeuralNetwork.Accumulated | src/main/kotlin/lv/tti/neuralnetwork/api/network/Network.kt:24 | `accumulated[k]` has the batch's rows and width sizes[k + 1] |
| NeuralNetwork.Fold | src/main/kotlin/lv/tti/neuralnetwork/api/network/Network.kt:48-50 | the fold of `calculate` has the input's rows and the output width |
| NeuralNetwork.LayerShift | src/main/kotlin/lv/tti/neuralnetwork/api/network/Network.kt:22-26 | layer k + 1 of the network is layer k of the network without its first transition, fed the first step's output |
| NeuralNetwork.FoldIsLastLayer | src/main/kotlin/lv/tti/neuralnetwork/api/network/Network.kt:48-50 | the fold in `calculate` equals `layers[length]` of `train`'s forward loop for the same weights and input |
| NeuralNetwork.GradientOf | src/main/kotlin/lv/tti/neuralnetwork/api/network/Network.kt:91-95 | `sigmoidGradient` of a matrix keeps its shape |
| NeuralNetwork.SigmoidGradient | src/main/kotlin/lv/tti/neuralnetwork/api/network/Network.kt:92-95 | when sigma(z) lies in [0, 1], as the logistic function's values do, the gradient sig * (1 - sig) lies in [0, 1/4] |
| NeuralNetwork.ProductBounds | src/main/kotlin/lv/tti/neuralnetwork/api/network/Network.kt:94 | s * (1 - s) lies in [0, 1/4] for every s in [0, 1] |
| NeuralNetwork.OutputError | src/main/kotlin/lv/tti/neuralnetwork/api/network/Network.kt:30 | the output error has the shape of the output layer |
| NeuralNetwork.BackStep | src/main/kotlin/lv/tti/neuralnetwork/api/network/Network.kt:32 | one backward step yields the batch's rows and the width of the layer it reaches |
| NeuralNetwork.ErrorTerm | src/main/kotlin/lv/tti/neuralnetwork/api/network/Network.kt:29-33 | `errors[k]` has the batch's rows and width sizes[k + 1] |
| NeuralNetwork.Descend | src/main/kotlin/lv/tti/neuralnetwork/api/network/Network.kt:37 | the descent step keeps the weight matrix's shape |
| NeuralNetwork.Updated | src/main/kotlin/lv/tti/neuralnetwork/api/network/Network.kt:36-38 | the updated matrix of transition k has shape (sizes[k] + 1) x sizes[k + 1] |
| NeuralNetwork.TrainedWeights | src/main/kotlin/lv/tti/neuralnetwork/api/network/Network.kt:16-39 | after `train` the weight list has the same length and every matrix the same shape as before |
| NeuralNetwork.ForwardStep | src/main/kotlin/lv/tti/neuralnetwork/api/network/Network.kt:23-26 | one iteration of the forward loop fills `accumulated[i]` and `layers[i + 1]` with their defined values |
| NeuralNetwork.ForwardPass | src/main/kotlin/lv/tti/neuralnetwork/api/network/Network.kt:19-26 | the forward loop leaves `layers[k]` and `accumulated[k]` equal to `Layer` and `Accumulated` for every k |
| NeuralNetwork.BackwardStart | src/main/kotlin/lv/tti/neuralnetwork/api/network/Network.kt:30 | the statement before the backward loop fills in the last error term |
| NeuralNetwork.BackwardStep | src/main/kotlin/lv/tti/neuralnetwork/api/network/Network.kt:31-33 | one iteration of the backward loop fills `errors[n]` from `errors[n + 1]` |
| NeuralNetwork.BackwardPass | src/main/kotlin/lv/tti/neuralnetwork/api/network/Network.kt:29-33 | the backward loop leaves every `errors[k]` equal to `ErrorTerm` |
| NeuralNetwork.UpdatePass | src/main/kotlin/lv/tti/neuralnetwork/api/network/Network.kt:36-38 | the `mapIndexed` update yields `TrainedWeights` |
| NeuralNetwork.Best | src/main/kotlin/lv/tti/neuralnetwork/api/network/Network.kt:83 | `best` is an index whose entry is at least every entry and greater than every entry before it: the first maximum |
| NeuralNetwork.AgreeingSnoc | src/main/kotlin/lv/tti/neuralnetwork/api/network/Network.kt:76-81 | the agreeing rows of m zipped pairs are those of the first m - 1, plus row m - 1 if its `best` indices agree |
| NeuralNetwork.Correct | src/main/kotlin/lv/tti/neuralnetwork/api/network/Network.kt:76-81 | `correct` counts exactly the zipped rows whose `best` indices agree, so it is at most the smaller row count |
| NeuralNetwork.Network.constructor | src/main/kotlin/lv/tti/neuralnetwork/api/network/Network.kt:6-14 | a new network holds `initializeWeights` for its sizes and learning rate 1.0 |
| NeuralNetwork.Network.Train | src/main/kotlin/lv/tti/neuralnetwork/api/network/Network.kt:16-39 | `train` replaces the weights by `TrainedWeights` of the old ones and keeps the network well shaped |
| NeuralNetwork.Network.Calculate | src/main/kotlin/lv/tti/neuralnetwork/api/network/Network.kt:48-50 | `calculate` yields an input-rows x output-size matrix equal to the last layer of `train`'s forward loop |
| NeuralNetwork.Network.Error | src/main/kotlin/lv/tti/neuralnetwork/api/network/Network.kt:52-58 | the correct count of `error` is the number of agreeing rows of the calculated and expected matrices |
| NeuralNetwork.Network.Copy | src/main/kotlin/lv/tti/neuralnetwork/api/network/Network.kt:61-65 | `copy` is a new network with the same topology and equal weights, and the default learning rate 1.0 |
| NeuralNetwork.Network.With | src/main/kotlin/lv/tti/neuralnetwork/api/network/Network.kt:67-70 | `with` sets the learning rate and returns the same object |
| NeuralNetwork.CopyIsolatedFromTraining | src/main/kotlin/lv/tti/neuralnetwork/api/network/Network.kt:61-65 | a copy is a different object: training the original afterwards changes only the original, and the copy keeps the weights it was taken with |
| Collections.Zip | src/main/kotlin/lv/tti/neuralnetwork/api/network/Overseer.kt:48 | `zip` pairs rows position by position and stops at the shorter list |
| Collections.ZipUnzip | src/main/kotlin/lv/tti/neuralnetwork/api/network/Overseer.kt:57-58 | splitting pairs into data rows and label rows and zipping them again gives the pairs |
| Batching.BatchLimit | src/main/kotlin/lv/tti/neuralnetwork/api/network/Overseer.kt:59 | the flush size is at least 1 and at least `batchSize`, and is `batchSize` when that is positive |
| Batching.FlushTest | src/main/kotlin/lv/tti/neuralnetwork/api/network/Overseer.kt:57-59 | right after an append, `size >= batchSize` is the same test as `size >= BatchLimit(batchSize)` |
| Batching.BatchSizes | src/main/kotlin/lv/tti/neuralnetwork/api/network/Overseer.kt:59-65 | every full batch holds exactly the limit, and the remainder fewer |
| Batching.FullBatches | src/main/kotlin/lv/tti/neuralnetwork/api/network/Overseer.kt:54-65 | there is a full batch exactly when the shuffled sequence holds at least b examples |
| Batching.Remainder | src/main/kotlin/lv/tti/neuralnetwork/api/network/Overseer.kt:67-68 | the pending remainder is shorter than b and no longer than the sequence |
| Batching.EpochBatches | src/main/kotlin/lv/tti/neuralnetwork/api/network/Overseer.kt:54-68 | an uninterrupted epoch trains some batch exactly when it has examples |
| Batching.BatchesCover | src/main/kotlin/lv/tti/neuralnetwork/api/network/Overseer.kt:54-66 | the full batches followed by the remainder are the shuffled sequence: nothing dropped, repeated or reordered |
| Batching.BatchCount | src/main/kotlin/lv/tti/neuralnetwork/api/network/Overseer.kt:59-60 | there are \|s\| / b full batches, and the remainder holds \|s\| % b examples |
| Batching.BatchesUnique | src/main/kotlin/lv/tti/neuralnetwork/api/network/Overseer.kt:54-66 | any split into b-sized batches plus fewer than b pending examples is the full batches and remainder |
| Batching.BatchedStep | src/main/kotlin/lv/tti/neuralnetwork/api/network/Overseer.kt:57-65 | appending the next example either keeps the pending batch below the limit or fills it to exactly the limit, and it is flushed |
| Batching.BatchedEnd | src/main/kotlin/lv/tti/neuralnetwork/api/network/Overseer.kt:66-69 | at the end of the pass, the flushed batches and the pending one are the epoch's full batches and its remainder |
| Batching.BatchedPrefix | src/main/kotlin/lv/tti/neuralnetwork/api/network/Overseer.kt:54-56 | part way through, the flushed batches are the full batches of the prefix read so far |
| Batching.EpochCovers | src/main/kotlin/lv/tti/neuralnetwork/api/network/Overseer.kt:54-69 | an unstopped epoch's batches concatenate to the shuffled sequence; each holds 1 to b examples, all but the last exactly b; there are \|s\| / b of them plus one for a non-empty remainder |
| Batching.EpochIsPermutation | src/main/kotlin/lv/tti/neuralnetwork/api/network/Overseer.kt:48-69 | an unstopped epoch trains a permutation of the training pairs |
| Training.PermutedShaped | src/main/kotlin/lv/tti/neuralnetwork/api/network/Overseer.kt:48 | a shuffle of rows of 784 pixels and 10 labels still has those widths |
| Training.CallOf | src/main/kotlin/lv/tti/neuralnetwork/api/network/Overseer.kt:57-62 | the data and label matrices passed to `train` have one row per batch example and stay position-aligned: zipped, they are the batch |
| Training.CallsAppend | src/main/kotlin/lv/tti/neuralnetwork/api/network/Overseer.kt:62-68 | the calls for two runs of batches are the calls for each, in order |
| Training.BatchFits | src/main/kotlin/lv/tti/neuralnetwork/api/network/Overseer.kt:62 | a non-empty batch of shaped examples is a call the network accepts |
| Training.TrainAll | src/main/kotlin/lv/tti/neuralnetwork/api/network/Overseer.kt:62-68 | training on a list of accepted calls keeps the weights well shaped |
| Training.TrainAllAppend | src/main/kotlin/lv/tti/neuralnetwork/api/network/Overseer.kt:62-68 | training on calls a then on calls b is training on a + b |
| Training.StopIndex | src/main/kotlin/lv/tti/neuralnetwork/api/network/Overseer.kt:54-56 | the first example before which the stop flag is seen set, or the end: none earlier sees it |
| Training.ShouldExit | src/main/kotlin/lv/tti/neuralnetwork/api/network/Overseer.kt:72 | the end-of-epoch test ends the session whenever it reads the stop flag set or a test recognition rate above 90, whatever the cost |
| Training.Epoch | src/main/kotlin/lv/tti/neuralnetwork/api/network/Overseer.kt:50-69 | a stopped epoch trains only full batches; an unstopped one trains its full batches and at most one more, the pending remainder |
| Training.EpochSpec | src/main/kotlin/lv/tti/neuralnetwork/api/network/Overseer.kt:50-69 | batches hold 1 to b examples; an unstopped epoch saw no stop flag, trains the shuffle exactly once and counts \|s\| / b full batches; a stopped epoch stopped at an example where the flag was set, trained the examples before it except fewer than b pending, and counts t / b full batches |
| Training.DriveStep | src/main/kotlin/lv/tti/neuralnetwork/api/network/Overseer.kt:45-74 | one epoch of the session: its calls follow the earlier ones, then the session ends if the epoch was stopped or the exit test holds, else it goes on to the next epoch |
| Training.Drive | src/main/kotlin/lv/tti/neuralnetwork/api/network/Overseer.kt:45-74 | a session that ends by the user's stop has last read the flag set; one that runs out of epochs has last read it clear |
| Training.DriveOutcome | src/main/kotlin/lv/tti/neuralnetwork/api/network/Overseer.kt:45-74 | a session stopped by the user ended in an epoch from j on that the flag cut short; one that exited early ended after an epoch the flag did not cut short and whose end-of-epoch test held, and the flag it reports is what that test read |
| Training.DriveEnd | src/main/kotlin/lv/tti/neuralnetwork/api/network/Overseer.kt:45 | past the last epoch the session makes no more calls and ends at the epoch limit |
| Training.DriveCallsFit | src/main/kotlin/lv/tti/neuralnetwork/api/network/Overseer.kt:45-69 | every call of a session is accepted by the 784-10 network and holds at most b rows |
| Training.EpochCallsFit | src/main/kotlin/lv/tti/neuralnetwork/api/network/Overseer.kt:54-69 | every call of one epoch over shaped examples is accepted and holds at most b rows |
| Training.DriveEpochs | src/main/kotlin/lv/tti/neuralnetwork/api/network/Overseer.kt:45-46 | every call belongs to an epoch from 1 to `epochLimit`; with `epochLimit < 1` nothing is trained and both counters stay as they were; otherwise the epoch counter ends between 1 and the limit, and on the limit when the session ran out of epochs |
| Training.DriveUninterrupted | src/main/kotlin/lv/tti/neuralnetwork/api/network/Overseer.kt:45-74 | with no stop flag and no early exit, every epoch up to the limit runs in full |
| Training.EpochCalls | src/main/kotlin/lv/tti/neuralnetwork/api/network/Overseer.kt:45-69 | the calls of epochs run to their end all belong to epochs j to the limit |
| Training.EpochCallsCover | src/main/kotlin/lv/tti/neuralnetwork/api/network/Overseer.kt:48-69 | the calls of an uninterrupted epoch, unzipped and concatenated, are exactly its shuffled pairs |
| Overseer.DataHolder.constructor | src/main/kotlin/lv/tti/neuralnetwork/api/network/Overseer.kt:137-145 | the holder starts empty: no iterations, counters 0, scores +infinity, recognition rates 0 |
| Overseer.DataHolder.Clear | src/main/kotlin/lv/tti/neuralnetwork/api/network/Overseer.kt:147-156 | `clear` empties the iterations, zeroes both counters, sets both scores to +infinity and both recognition rates to 0 |
| Overseer.ToReals | src/main/kotlin/lv/tti/neuralnetwork/api/network/Overseer.kt:86 | the pixel row is the record's pixels, converted one by one |
| Overseer.OneHot | src/main/kotlin/lv/tti/neuralnetwork/api/network/Overseer.kt:87 | a label row has 10 entries |
| Overseer.OneHotBest | src/main/kotlin/lv/tti/neuralnetwork/api/network/Overseer.kt:87 | `best` of the label row of a digit 0..9 is that digit; a label outside 0..9 gives a row of zeros, which reads as 0 |
| Overseer.Rows | src/main/kotlin/lv/tti/neuralnetwork/api/network/Overseer.kt:84-88 | one pixel row and one label row per record, in file order |
| Overseer.PreparedRow | src/main/kotlin/lv/tti/neuralnetwork/api/network/Overseer.kt:84-87 | row k of prepared data is the k-th record of the files: its pixels as reals and the label row of label byte 4 + k, from which `best` recovers the label when it is a digit; with 28 x 28 images the rows are 784 and 10 wide |
| Overseer.Prepared | src/main/kotlin/lv/tti/neuralnetwork/api/network/Overseer.kt:77-91 | prepared data has exactly as many label rows as pixel rows |
| Overseer.PreparedCount | src/main/kotlin/lv/tti/neuralnetwork/api/network/Overseer.kt:84-85 | the count `prepareData` reaches is the number of rows when it succeeds, and 0 when the header fails |
| Overseer.Overseer.constructor | src/main/kotlin/lv/tti/neuralnetwork/api/network/Overseer.kt:22-28 | the overseer starts with empty training data and the stop flag clear |
| Overseer.Overseer.PrepareData | src/main/kotlin/lv/tti/neuralnetwork/api/network/Overseer.kt:77-91 | the result is the header's error, the first failing record's error, or the rows of every record; when no record was read the iterations map is unchanged, otherwise only the entry `type` changes, to the number of records read before the end or the failing record |
| Overseer.Overseer.ReadRecords | src/main/kotlin/lv/tti/neuralnetwork/api/network/Overseer.kt:83-89 | from a reader at the first record, the loop returns the rows of every record or the first record's error, and leaves the entry `type` at the number of records read, or unchanged when there were none |
| Overseer.Overseer.Train | src/main/kotlin/lv/tti/neuralnetwork/api/network/Overseer.kt:36-75 | a fresh 784-10 network with the given hidden sizes and learning rate makes exactly the calls `Drive` lists from counters 0, ends for `Drive`'s reason with its counters, and holds the initial weights trained on those calls; the stop flag ends as `Drive` reports it was last read, and the iterations map ends empty |
| Overseer.Overseer.Epochs | src/main/kotlin/lv/tti/neuralnetwork/api/network/Overseer.kt:45-74 | the epoch loop makes the calls of `Drive` from the holder's counters, ends for its reason with its counters and flag, and trains the network on the calls in order |
| Overseer.Overseer.SessionEpoch | src/main/kotlin/lv/tti/neuralnetwork/api/network/Overseer.kt:45-73 | one epoch and the test after it keep the network trained on the session's calls and the session in agreement with `Drive`, flag included, and say whether the session ends |
| Overseer.Overseer.RunEpoch | src/main/kotlin/lv/tti/neuralnetwork/api/network/Overseer.kt:45-69 | epoch j publishes j as the epoch, trains the batches `Epoch` gives for its shuffle, and leaves the iteration counter at the epoch's number of full batches, or as it was if there were none |
| Overseer.Overseer.TrainEpoch | src/main/kotlin/lv/tti/neuralnetwork/api/network/Overseer.kt:50-69 | one pass reports whether the stop flag cut it short, trains exactly the batches of `Epoch` in order, and sets the iteration counter to the number of full batches |
| Overseer.Overseer.PassOver | src/main/kotlin/lv/tti/neuralnetwork/api/network/Overseer.kt:53-66 | the example loop trains every batch that fills up; stopped, it has trained the epoch's batches; otherwise it saw no stop flag and holds the epoch's full batches and its pending remainder |
| Overseer.Overseer.TrainBatch | src/main/kotlin/lv/tti/neuralnetwork/api/network/Overseer.kt:62 | training one more batch extends the trained calls by that batch's call |

## Left out

- Floating-point arithmetic. Entries are Dafny reals with no rounding, and `sigmoid` is an arbitrary function `sigma`. `sigmoidGradient` is defined from `sigma` as the code does.
- NeuralNetwork.Network.Error: models only the correct count. The cross-entropy cost (`cost`, `safeLog`, `mean`) is floating-point arithmetic.
- Randomness is an input:
  - `rand` in `random` is a function `rnd(layer, row, column)`;
  - `shuffled()` is the environment's `shuffle(j, pairs)`, assumed to return a permutation.
- Threads and plotting: `prepare`, `daemon`, `await`, `plotResults` and `plotResult`. The per-epoch `network.copy()` handed to the plotting thread is left out of `Overseer.Train`; `Network.Copy` itself is modelled.
- The values `plotResults` publishes (`trainScore`, `trainRecog`, `testScore`, `testRecog`) are written by another thread. The end-of-epoch test reads them, and the stop flag, as the environment's `observed(j)`. The stop check before each example is the environment's `stopBefore(j, t)`.
- The stop flag is written by the user interface thread. The model gives the flag as the session last read it, before an example or in the end-of-epoch test.
- `trainResults`, `testResults` and `testData` are only used by plotting and are not modelled.
- UI.kt and Resource.kt are not part of this model: a user interface and a classpath file lookup. The file contents are given as byte sequences, and `close`/`use` have nothing to release.
- `hasNext` is `available() > 0` on a file stream, modelled as "image bytes remain".
- NeuralNetwork.Network.Train: requires a non-empty batch whose widths match the network. The linear-algebra library would throw on a shape mismatch, and an empty batch divides by zero rows.
- NeuralNetwork.Best: requires a non-empty row, where the code's `maxBy { }!!` would throw.
- NeuralNetwork.Network.constructor: hidden sizes are natural numbers. A negative size makes the library throw.
- Overseer.Overseer.PrepareData: the record counter is an unbounded integer; Kotlin's `Int` would wrap after 2^31 - 1 records.
- Overseer.Overseer.Train: the training data must already have 784-wide pixel rows and 10-wide label rows. With other widths `network.train` would throw.
- Overseer.Overseer.Train: the calls it makes of `network.train` are returned as a ghost record. They are the specification of what the network received and are not computed at run time.
