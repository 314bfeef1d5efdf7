# Sensor library and power HAL: a Dafny model

This project models the algorithmic code of two native components and proves what they are
meant to guarantee. `dafny verify dfyconfig.toml` checks the whole project.

The **sensor library** (`drivers/sensors`) turns raw samples into calibrated, fused data:

- *Calibration image store*: a registry of keyed boxes printed to a byte image with headers and
  checksums, and parsed back. `Checksum` has the hash and exactly which changes it detects;
  `StorageFormat` the bytes, the printer and the parser as functions; `StorageRoundTrip` loading
  across registries; `StorageCorruption` rejection of damaged images; `StorageSafety` what a load
  callback can get from any image; `StorageTermination` when the load loop ends; `StorageManager` the
  store object whose methods walk the buffer and are proved equal to those functions.
- *Fixed-point math*: `Quaternion` proves the rounding and norm bounds over exact integers,
  `Quaternion32` that the 32-bit array code computes the same words and when nothing is lost,
  `RotationWords` that its two ways to rotate a vector agree,
  `Orientation` the packed orientation codes, `Determinant` and `MatrixDet` the recursive
  determinant over minors. `Int32` has the two's-complement words of the armv7 target, where
  `long` is 32 bits wide.
- *Data builder*: `Callbacks` (the priority-sorted callback array), `SensorStatus` (status bits
  against the history of calls), `Calibration` (the cached calibrated vectors), `DataBuilder` (the
  object, dispatch included).
- *Results holder*: `ResultsHolder`, the lazily recomputed 9-axis quaternion.
- *Input stream*: `InputEventReader` (the doubled ring buffer as a FIFO) and `NvsInput` (its consumer
  as a fold over the kernel's event stream).
- *Accelerometer window*: `AccelWindow`, the sliding sums that decide between the idle and the fast
  sampling period.

The **power HAL** (`common/power`) boosts frequencies for a while when hints arrive:

- *Timed requests*: `TimeoutPoker` is the transition system of the keyed event table, the looper
  thread and the process's descriptors; `PokeHandlers` the handler object whose methods do its steps.
- *Hints*: `PowerHints` has the rate limiter and the composition of hints, limiter and poker, with
  the coverage of the interaction boost.
- *Regular hints thread*: `HintsThread` is the transition system of one caller, the worker, the mutex,
  the condition variable and the exit flag; `CameraPowers` the object whose whole calls run against a
  worker that goes on whenever the caller waits.

How the parts fit: where the source updates fields or buffers in place, a class or an array method
does the same and its postcondition equates the new state with a function of the old one; the theorems
are lemmas about those functions, over all inputs, all runs or all reachable states. "Run" always means
any sequence of calls or steps, of any length.

Words used below: a *life* is one descriptor from its opening to its closing; a box is *visible* when
the load loop looks at it; a sensor is *reported* when the next execute sees it as new.

## Where the code and its documentation disagree

The model follows the code.

- `inv_execute_on_data` tests the quaternion's status word against `INV_QUAT_NEW`, which is 16 and in a
  status word means `INV_CONTIGUOUS`. `SensorStatus.QuatDispatchIff` says when quaternion callbacks still run
  exactly on new data; `SensorStatus.QuatFirstBatchMissed` is the first batch that is missed.
- The load loop stops when 12 bytes are left, so an empty last box is never looked at.
  `StorageRoundTrip.AllSharedDeliveredIff` is the exact condition, `StorageRoundTrip.EmptyBoxMissedExample` an
  input. `length` is compared with 12 and then
  ignored.
- A bias restored from storage is not applied by the load. The cached vectors are those of the bias at the
  last refresh, which is the last raw sample or the last bias set that differed from the saved one
  (`Calibration.CopiesAreOfLastRefresh`). After a load they are right if and only if that bias and the
  loaded one calibrate the sample alike, or something follows that is not just the loaded bias again: a
  new sample or another bias repairs them, announcing the loaded bias never does, because an unchanged bias
  is skipped (`Calibration.LoadRepairedIff`, `Calibration.SkipSoundIff`; `Calibration.LoadStaleExample` is an
  input).
- `inv_get_gravity` uses the quaternion of the last fetch. It is that of the latest inputs if and only if the
  inputs at that fetch and the latest ones have one product (`ResultsHolder.UpToDateIff`); that is so whatever
  the product does if and only if the inputs have the values they had (`ResultsHolder.GravityRightIff`), and
  for the code's product also, say, when both are negated (`ResultsHolder.NegatedInputsExample`).
  `ResultsHolder.GravityWrongExample` is an input for which it points the wrong
  way.
- Two 2^30 numbers multiplied by `inv_q29_mult` give 2^31, which no 32-bit word holds; in the rotation
  matrix the wrap cancels for squared lengths below 3/2 (`Quaternion32.RotationExact32`), less than a unit above
  that it need not (`Quaternion32.ThreeHalvesIsTight`), and up to two units short of 2 it does if and only if
  the three diagonal entries stay below two (`Quaternion32.RotationExactIff`).
- The load loop need not end. As long as its cursor does not move back, it ends if and only if it steps over
  no header of size -12 (`StorageTermination.EndsIffWalkable`); `StorageTermination.HangingExample` is an image of 25
  bytes that passes the outer checks and keeps it turning for ever.
- The regular hints thread takes every wakeup that is not a timeout for the request to exit. After a
  spurious wakeup the thread is gone and its handle is not, so later hints launch nothing until a
  reset: `HintsThread.HintsGoOnExactlyWhen`, `HintsThread.HintsCanBeLost`.
- The move to the idle sampling period does not need a stable device when the idle period is what the clients
  ask for: `AccelWindow.IdleInRuns`, and `AccelWindow.IdleWhileUnstableExample` for an input.
  Right after a reset an idle window compares the new sample with whatever its last cell was left with:
  `AccelWindow.IdleComparesNeighbours`.
- `writeAccelFifoRate` announces the rate from a period cut to 32 bits, so not every 64-bit period comes out right:
  `AccelWindow.MicrosMeaning` is for those that fit, `AccelWindow.MicrosWrapsExample` an input that does not.

## Model

| member | source | states |
|---|---|---|
| Int32.WrapCancels | drivers/sensors/mlsdk/mllite/ml_math_func.c:346-372 | words that wrapped before being added or subtracted end up as the wrap of the exact sum or difference |
| Checksum.InvChecksum | drivers/sensors/mlsdk/mllite/ml_math_func.c:542-553 | the 32-bit loop computes, modulo 2^32, the polynomial in 33 that HashIsWeightedSum writes out; a non-positive length hashes nothing |
| Checksum.HashIsWeightedSum | drivers/sensors/mlsdk/mllite/ml_math_func.c:542-553 | the hash is 5381 * 33^n plus every byte times 33 to the number of bytes after it, modulo 2^32 |
| Checksum.HornerSum | drivers/sensors/mlsdk/mllite/ml_math_func.c:547-550 | the same sum with nothing cut off, from any starting value |
| Checksum.WeightOfByte | drivers/sensors/mlsdk/mllite/ml_math_func.c:547-550 | replacing a byte changes the sum by the difference times the weight of its place |
| Checksum.HashExamples | drivers/sensors/mlsdk/mllite/ml_math_func.c:542-553 | the hash of nothing is 5381, of "a" 177670, of "ab" 5863208 |
| Checksum.BurstDetection | drivers/sensors/mlsdk/mllite/ml_math_func.c:542-553 | replacing a stretch of any message by another of equal length leaves the hash alone if and only if 2^32 divides the stretch's difference polynomial, whatever surrounds it |
| Checksum.TailPreservesDifference | drivers/sensors/mlsdk/mllite/ml_math_func.c:547-550 | hashing on over a common tail neither creates nor removes a collision, because 33 is a unit |
| Checksum.ShortBurst | drivers/sensors/mlsdk/mllite/ml_math_func.c:542-553 | a change confined to five bytes is missed only when its integer difference polynomial is zero |
| Checksum.TwoByteChange | drivers/sensors/mlsdk/mllite/ml_math_func.c:542-553 | two neighbouring changes are missed exactly when the second is -33 times the first |
| Checksum.SingleByteChange | drivers/sensors/mlsdk/mllite/ml_math_func.c:542-553 | changing one byte of a message of any length changes the hash |
| StorageFormat.HeaderRoundTrip | drivers/sensors/mlsdk/mllite/storage_manager.c:33-37 | a header written as 12 little-endian bytes reads back as itself |
| StorageFormat.FindUnique | drivers/sensors/mlsdk/mllite/storage_manager.c:105-114 | with distinct keys the search finds the one box with the key |
| StorageFormat.SavedLayout | drivers/sensors/mlsdk/mllite/storage_manager.c:170-198 | an image is 12 bytes plus 12 and the size for every box, its outer header says so, and the body follows it |
| StorageTermination.EndsIffWalkable | drivers/sensors/mlsdk/mllite/storage_manager.c:143-159 | a box loop that reads inside memory and never moves its cursor back ends within some number of turns if and only if it steps over no header of size -12 |
| StorageTermination.NeverEnds | drivers/sensors/mlsdk/mllite/storage_manager.c:143-159 | stepping over a header of size -12 the loop does not end within any number of turns |
| StorageTermination.WalkEnds | drivers/sensors/mlsdk/mllite/storage_manager.c:143-159 | otherwise it ends within as many turns as there are bytes |
| StorageTermination.HangingExample | drivers/sensors/mlsdk/mllite/storage_manager.c:122-159 | an image of 25 bytes whose outer key and checksum are right and on which, with its inner key unregistered, the loop never ends |
| StorageRoundTrip.LoadOfSave | drivers/sensors/mlsdk/mllite/storage_manager.c:122-198 | an image of any registry loaded into any other passes all checks and delivers, in saving order and once each, the visible boxes known to both, up to the first whose size changed |
| StorageRoundTrip.LoadSucceedsIff | drivers/sensors/mlsdk/mllite/storage_manager.c:122-198 | loading a saved image succeeds if and only if no visible shared box changed size; otherwise it reports the length error |
| StorageRoundTrip.AllSharedDeliveredIff | drivers/sensors/mlsdk/mllite/storage_manager.c:122-198 | with agreeing sizes loading a saved image succeeds, and it delivers every shared box if and only if the last saved box is not an empty one the loading side knows |
| StorageRoundTrip.EmptyBoxMissedExample | drivers/sensors/mlsdk/mllite/storage_manager.c:122-198 | one empty box, saved and loaded where it is known, is a success that delivers nothing |
| StorageRoundTrip.CrossVersionLoad | drivers/sensors/mlsdk/mllite/storage_manager.c:122-198 | with agreeing sizes the load succeeds and every record then holds the saved bytes of its key, or is untouched when the image lacks it |
| StorageRoundTrip.SaveLoadRestores | drivers/sensors/mlsdk/mllite/storage_manager.c:122-198 | saving, changing the records at will and loading restores every record |
| StorageRoundTrip.ApplyShared | drivers/sensors/mlsdk/mllite/storage_manager.c:143-159 | after all deliveries each record is the one its key has in the image |
| StorageRoundTrip.RecordAfterMeaning | drivers/sensors/mlsdk/mllite/storage_manager.c:145-155 | the record after a load is that of the one saved box with its key, or the old one |
| StorageCorruption.BodyChangeRejected | drivers/sensors/mlsdk/mllite/storage_manager.c:139-141 | a body that hashes differently makes the load fail before any load callback |
| StorageCorruption.BurstRejected | drivers/sensors/mlsdk/mllite/storage_manager.c:139-141 | a change within five consecutive body bytes is rejected unless its difference polynomial is zero |
| StorageCorruption.SingleByteRejected | drivers/sensors/mlsdk/mllite/storage_manager.c:122-141 | changing any one byte after the outer size field, checksum and key included, is rejected before any load callback, for images of every length |
| StorageCorruption.SavedIsIntact | drivers/sensors/mlsdk/mllite/storage_manager.c:191-195 | what was saved passes the outer checks, so the rejection results apply to it |
| StorageSafety.EveryDeliveryIntact | drivers/sensors/mlsdk/mllite/storage_manager.c:122-162 | for every image whose claimed sizes stay inside memory, damaged or not: fewer than 12 bytes, a wrong key or a wrong hash is the load error without a callback, and every callback gets data that lies whole in the claimed body with a right checksum, under a registered key and of its registered size |
| StorageSafety.WrongBoxStopsLoad | drivers/sensors/mlsdk/mllite/storage_manager.c:143-159 | a shared box with a wrong inner checksum is the load error; the good boxes before it are delivered, it and those after it are not |
| StorageSafety.CutBoxEndsLoad | drivers/sensors/mlsdk/mllite/storage_manager.c:143-161 | a last box that claims more bytes than are left ends the load with success and is not delivered; the good boxes before it are |
| StorageSafety.GoodThen | drivers/sensors/mlsdk/mllite/storage_manager.c:143-159 | good boxes in front of anything add their deliveries and leave the result to what follows |
| StorageSafety.BoxBytesExample | drivers/sensors/mlsdk/mllite/storage_manager.c:33-37 | the bytes of a header and of a box: size, checksum, key, lowest byte first, then the payload |
| StorageManager.Store.constructor | drivers/sensors/mlsdk/mllite/storage_manager.c:50-54 | the empty registry, total size 12 |
| StorageManager.Store.FindEntry | drivers/sensors/mlsdk/mllite/storage_manager.c:105-114 | the loop finds the first box with the key, or -1 |
| StorageManager.Store.Register | drivers/sensors/mlsdk/mllite/storage_manager.c:66-89 | a known key or a full registry is an error that changes nothing; otherwise the box is appended, keys stay distinct and the total size is 12 plus the boxes |
| StorageManager.Store.Save | drivers/sensors/mlsdk/mllite/storage_manager.c:170-198 | a buffer that is too small is an error and untouched; otherwise it starts with exactly the image of the registry and the rest is untouched |
| StorageManager.Store.SaveBoxes | drivers/sensors/mlsdk/mllite/storage_manager.c:177-186 | the cursor loop writes exactly the printed boxes one after the other |
| StorageManager.SaveBox | drivers/sensors/mlsdk/mllite/storage_manager.c:179-185 | one turn writes the printed box at the cursor and nothing else, the header being completed from the bytes the callback wrote |
| StorageManager.FinishImage | drivers/sensors/mlsdk/mllite/storage_manager.c:191-195 | the outer header holds total size, hash of the body and the format key; the body stays |
| StorageManager.Store.Load | drivers/sensors/mlsdk/mllite/storage_manager.c:122-162 | returns what parsing the memory gives, makes exactly those load callbacks in that order, and leaves the records they leave |
| StorageManager.Store.LoadAllBoxes | drivers/sensors/mlsdk/mllite/storage_manager.c:143-161 | the boxes of the body make the callbacks of the recursive parse against the registry as it was at the start, and return its result |
| StorageManager.Store.LoadRest | drivers/sensors/mlsdk/mllite/storage_manager.c:143-159 | the loop ends (the remaining length falls) and makes exactly the callbacks of the outcome to come, although each changes a record meanwhile |
| StorageManager.Store.CheckBox | drivers/sensors/mlsdk/mllite/storage_manager.c:144-155 | one box gives the length error, the checksum error, one delivery or nothing, as the parse says |
| Quaternion.ProductRounding | drivers/sensors/mlsdk/mllite/ml_math_func.c:164-178 | each component of the fixed-point product is less than 3 units from the exact Hamilton product, with the side it errs to |
| Quaternion.IdentityIsNeutral | drivers/sensors/mlsdk/mllite/ml_math_func.c:164-178 | multiplying by the identity loses nothing on either side |
| Quaternion.AxesMultiply | drivers/sensors/mlsdk/mllite/ml_math_func.c:164-178 | the orientation of the product: x times y is z, y times z is x, z times x is y |
| Quaternion.NormPreserved | drivers/sensors/mlsdk/mllite/ml_math_func.c:113-178 | for all quaternions the squared length of the rounded product differs from the product of the squared lengths by at most 12 units times the length, plus 36 |
| Quaternion.UnitNormPreserved | drivers/sensors/mlsdk/mllite/ml_math_func.c:164-178 | for lengths up to one the squared length is off by less than 12 units, plus 36 of the next word |
| Quaternion.FourSquares | drivers/sensors/mlsdk/mllite/ml_math_func.c:164-178 | Euler's four-square identity for the exact product |
| Quaternion.UnitProductNearUnit | drivers/sensors/mlsdk/mllite/ml_math_func.c:164-178 | factors whose squared lengths are up to j and k units off one, each up to 1000, have a product at most 13 + j + k units off one |
| Quaternion.RowIdentity | drivers/sensors/mlsdk/mllite/ml_math_func.c:346-372 | matrix times vector equals q v q* plus (squared length - 1) v, with nothing rounded |
| Quaternion.RotationAgreement | drivers/sensors/mlsdk/mllite/ml_math_func.c:247-372 | for all q and v with components of magnitude at most one, multiplying by the rotation matrix and rotating by the quaternion differ by (squared length - 1) v up to 21 units in every component |
| Quaternion.NearUnitRotationAgreement | drivers/sensors/mlsdk/mllite/ml_math_func.c:247-372 | within k units of squared length one the two rotations agree to 21 + k units, over unbounded integers |
| RotationWords.InvMatrixVectorMult | drivers/sensors/mlsdk/mllite/data_builder.c:395-400 | the array code with its wrapping sums computes the product cut to 32 bits |
| RotationWords.MatVecExact32 | drivers/sensors/mlsdk/mllite/data_builder.c:395-400 | for squared length at most 17/16 and components of v at most one the three sums fit, so the product through words is the exact one |
| RotationWords.TurnLength | drivers/sensors/mlsdk/mllite/ml_math_func.c:346-372 | the first row of the rotation, with nothing rounded, is as long as the squared length of the quaternion |
| RotationWords.WordsAgree | drivers/sensors/mlsdk/mllite/data_builder.c:395-400 | for components at most one and squared length at most 17/16 the words computed by multiplying with the 32-bit matrix and by rotating differ by (squared length - 1) v up to 21 units |
| RotationWords.NearUnitWordsAgree | drivers/sensors/mlsdk/mllite/data_builder.c:395-400 | within k units of squared length one, k up to 2^26, these words agree to 21 + k units |
| Quaternion32.InvQ30Mult | drivers/sensors/mlsdk/mllite/ml_math_func.c:113-126 | the 64-bit product fits, and the result is its floor by 2^30 cut to 32 bits |
| Quaternion32.InvQ29Mult | drivers/sensors/mlsdk/mllite/ml_math_func.c:91-104 | the 64-bit product fits, and the result is its floor by 2^29 cut to 32 bits |
| Quaternion32.InvQMult | drivers/sensors/mlsdk/mllite/ml_math_func.c:164-178 | the array code with its wrapping sums computes the exact fixed-point product cut to 32 bits |
| Quaternion32.InvQInvert | drivers/sensors/mlsdk/mllite/ml_math_func.c:225-232 | the conjugate, its negations cut to 32 bits |
| Quaternion32.InvQRotate | drivers/sensors/mlsdk/mllite/ml_math_func.c:247-259 | the output holds the vector part of q v q* through 32-bit words, also when it is the input array |
| Quaternion32.InvQuaternionToRotation | drivers/sensors/mlsdk/mllite/ml_math_func.c:346-372 | the array code computes the exact matrix cut to 32 bits, whatever wrapped on the way |
| Quaternion32.RotationExact32 | drivers/sensors/mlsdk/mllite/ml_math_func.c:346-372 | for every squared length below 3/2 the 32-bit matrix is the exact one |
| Quaternion32.ThreeHalvesIsTight | drivers/sensors/mlsdk/mllite/ml_math_func.c:348-371 | a quaternion whose squared length is less than one unit above 3/2 has another 32-bit matrix, so 3/2 is the threshold |
| Quaternion32.RotationExactIff | drivers/sensors/mlsdk/mllite/ml_math_func.c:346-372 | up to two units short of squared length 2 the 32-bit matrix is the exact one if and only if w^2 with each of x^2, y^2 and z^2 stays below 3/2 |
| Quaternion32.RotationOverflows | drivers/sensors/mlsdk/mllite/ml_math_func.c:348-351 | for instance with w and x both one an entry is 3 and the word holds -1 |
| Quaternion32.ProductFits32 | drivers/sensors/mlsdk/mllite/ml_math_func.c:164-178 | a product whose exact length is below 31/16 loses nothing to the words |
| Quaternion32.RotateExact32 | drivers/sensors/mlsdk/mllite/ml_math_func.c:247-259 | for squared length at most 17/16 and components of v at most one the 32-bit rotation is the exact one |
| Orientation.InvConvertToBody | drivers/sensors/mlsdk/mllite/ml_math_func.c:613-618 | the output array holds the input's components picked and signed by the code, through 32-bit words |
| Orientation.InvConvertToChip | drivers/sensors/mlsdk/mllite/ml_math_func.c:625-630 | the output array holds the input scattered and signed by the code over what it held before, through 32-bit words |
| Orientation.BodyExactIff | drivers/sensors/mlsdk/mllite/ml_math_func.c:613-618 | the words hold the exact result if and only if no component that is negated is -2^31 |
| Orientation.PackingKeeps | drivers/sensors/mlsdk/mllite/ml_math_func.c:555-606 | packing a signed permutation matrix keeps the column and the sign of every row |
| Orientation.ScaleMeaning | drivers/sensors/mlsdk/mllite/ml_math_func.c:555-584 | the code of any row is 7 if and only if the row is zero, and otherwise the column of its first non-zero entry with the sign |
| Orientation.ConvertIsMultiply | drivers/sensors/mlsdk/mllite/ml_math_func.c:586-618 | for every signed permutation matrix converting with its code is multiplying by the matrix |
| Orientation.ConversionsInverse | drivers/sensors/mlsdk/mllite/ml_math_func.c:613-630 | the two conversions undo each other in either order when no two rows share a column, whatever the output held |
| Orientation.WordConversionsInverse | drivers/sensors/mlsdk/mllite/ml_math_func.c:613-630 | the same through 32-bit words for every vector, -2^31 included |
| Orientation.SignedPermutationPermutes | drivers/sensors/mlsdk/mllite/ml_math_func.c:586-606 | the code of a signed permutation matrix meets that condition |
| Orientation.RoundTripIffPermutes | drivers/sensors/mlsdk/mllite/ml_math_func.c:613-630 | to the chip frame and back is the identity if and only if no two rows share a column |
| Determinant.SwapNegates | drivers/sensors/mlsdk/mllite/ml_math_func.c:489-506 | exchanging any two rows of a matrix of any size negates the Laplace determinant |
| Determinant.EqualRowsVanish | drivers/sensors/mlsdk/mllite/ml_math_func.c:489-506 | two equal rows make it zero |
| Determinant.DetIsLinear | drivers/sensors/mlsdk/mllite/ml_math_func.c:489-506 | the determinant is linear in every row |
| Determinant.TriangularDet | drivers/sensors/mlsdk/mllite/ml_math_func.c:489-506 | of a triangular matrix of any size it is the product of the diagonal, so one for the identity: with the sign under exchanges and the linearity this characterises the determinant |
| Determinant.DetOfCopy | drivers/sensors/mlsdk/mllite/ml_math_func.c:455-468 | equal entries give equal determinants wherever the matrices lie, so a minor may be copied out |
| MatrixDet.InvMatrixDetIncd | drivers/sensors/mlsdk/mllite/ml_math_func.c:455-468 | the copy loops whose indices jump over row x and column y leave exactly the minor in stride-6 storage, and the shared counter one less |
| MatrixDet.MinorIsRemoval | drivers/sensors/mlsdk/mllite/ml_math_func.c:455-468 | the copied minor has the determinant of the matrix without that row and column |
| MatrixDet.InvMatrixDetd | drivers/sensors/mlsdk/mllite/ml_math_func.c:489-506 | for every real matrix of two to five rows the code computes the Laplace determinant and ends, although the counter is shared and mutated |
| MatrixDet.RowSwapNegates | drivers/sensors/mlsdk/mllite/ml_math_func.c:489-506 | exchanging two rows of the stored matrix negates it |
| Callbacks.CallbackTable.RegisterDataCb | drivers/sensors/mlsdk/mllite/data_builder.c:819-863 | a used function or priority and a full array are errors that change nothing; otherwise the entry goes before the first larger priority |
| Callbacks.CallbackTable.UnregisterDataCb | drivers/sensors/mlsdk/mllite/data_builder.c:876-894 | the entry of the function goes, the others keep their order; success in either case |
| Callbacks.CallbackTable.InsertAt | drivers/sensors/mlsdk/mllite/data_builder.c:844-856 | the shifting loop moves the entries up by one and fills the gap |
| Callbacks.CallbackTable.RemoveAt | drivers/sensors/mlsdk/mllite/data_builder.c:883-888 | the shifting loop moves the entries down by one |
| Callbacks.RegisterKeepsValid | drivers/sensors/mlsdk/mllite/data_builder.c:819-863 | registration keeps the array strictly sorted by priority, functions distinct, at most 20 entries |
| Callbacks.RegisterResult | drivers/sensors/mlsdk/mllite/data_builder.c:819-863 | which answer registration gives for which set of entries, and that only success changes the set |
| Callbacks.DeleteKeepsValid | drivers/sensors/mlsdk/mllite/data_builder.c:876-894 | so does unregistration |
| Callbacks.CallbackTable.constructor | drivers/sensors/mlsdk/mllite/data_builder.c:107-119 | the empty array is valid |
| Callbacks.RunInvariant | drivers/sensors/mlsdk/mllite/data_builder.c:819-894 | in every run the array is valid and holds exactly the registrations in force |
| Callbacks.TableIsItsSet | drivers/sensors/mlsdk/mllite/data_builder.c:838-851 | a valid array is determined by its set of entries |
| Callbacks.OrderDoesNotMatter | drivers/sensors/mlsdk/mllite/data_builder.c:819-894 | histories that leave the same registrations in force leave the same array, whatever the order and whatever failed |
| Callbacks.RegisterUnregister | drivers/sensors/mlsdk/mllite/data_builder.c:819-894 | unregistering a function just registered restores the array exactly |
| SensorStatus.StatusMeaning | drivers/sensors/mlsdk/mllite/data_builder.c:408-806 | after every history of builds, biases, executes and turn-offs the three bits of each sensor say exactly that it delivered data since it was last off, that new data waits, and that an execute has processed data of it since |
| SensorStatus.DescriptionMeaning | drivers/sensors/mlsdk/mllite/data_builder.c:609-762 | after every history each descriptive bit of a sensor (calibrated, raw, bias applied) stands exactly when some call since it was last off set it |
| SensorStatus.StatusSafety | drivers/sensors/mlsdk/mllite/data_builder.c:946-991 | new or contiguous data implies the sensor is on, and no new data survives an execute |
| SensorStatus.FirstBatch | drivers/sensors/mlsdk/mllite/data_builder.c:902-991 | callbacks see new data that is not contiguous exactly in the first batch executed since the sensor was off |
| SensorStatus.ModeMeaning | drivers/sensors/mlsdk/mllite/data_builder.c:915-925 | the mode word reports a sensor exactly when new data waits, the quaternion exactly when an earlier batch was processed |
| SensorStatus.QuatDispatchIff | drivers/sensors/mlsdk/mllite/data_builder.c:924-925 | the quaternion is reported exactly on new data if and only if new data and an earlier batch coincide |
| SensorStatus.QuatFirstBatchMissed | drivers/sensors/mlsdk/mllite/data_builder.c:924-925 | the first quaternion batch is not reported, and after it the quaternion is reported without new data |
| Calibration.RawScaledMeaning | drivers/sensors/mlsdk/mllite/data_builder.c:408-417 | raw_scaled is floor(sign * raw * sensitivity / 2^14) in every component |
| Calibration.CalibratedMeaning | drivers/sensors/mlsdk/mllite/data_builder.c:419-423 | calibrated is less than two units from the exact sign * (2^16 raw - bias) * sensitivity / 2^30 |
| Calibration.NothingOverflows | drivers/sensors/mlsdk/mllite/ml_math_func.c:640-648 | for every 16-bit raw value, 32-bit bias and sensitivity up to 2^29 every intermediate word fits |
| Calibration.CallCoherent | drivers/sensors/mlsdk/mllite/data_builder.c:519-526 | a raw build and a bias other than the saved one make the cached vectors what recomputation gives, and setting the saved one keeps them so |
| Calibration.CacheCoherence | drivers/sensors/mlsdk/mllite/data_builder.c:408-666 | from the first raw build on, with no later orientation or load, the cached vectors always equal recomputation from the sample and the saved bias |
| Calibration.SkipSoundIff | drivers/sensors/mlsdk/mllite/data_builder.c:519-526 | after a bias call the cache is right if and only if the bias differs from the saved one or the cache was right before |
| Calibration.RepairedIff | drivers/sensors/mlsdk/mllite/data_builder.c:519-663 | whatever the cache holds, any run of raw builds and biases leaves it right if and only if one of them is not just the saved bias again, or it was right; that bias again changes nothing |
| Calibration.CopiesAreOfLastRefresh | drivers/sensors/mlsdk/mllite/data_builder.c:84-663 | in every history of raw builds, biases and loads the cached vectors are those of the latest sample and the bias at the last refresh, whatever was loaded since |
| Calibration.CoherentIff | drivers/sensors/mlsdk/mllite/data_builder.c:84-663 | in every such history the cache is right if and only if the bias at the last refresh and the saved one calibrate the latest sample alike |
| Calibration.LoadRepairedIff | drivers/sensors/mlsdk/mllite/data_builder.c:84-663 | after a load at any point of any such history and any raw builds and biases after it, the cache is right if and only if one of these is not just the loaded bias again, or the loaded bias calibrates the sample as the one at the last refresh |
| Calibration.CachesInAllHistories | drivers/sensors/mlsdk/mllite/data_builder.c:609-720 | in every history of raw builds, outside calibrations, biases, orientations and loads: sample, mounting and bias are the latest, the cached vectors are those of the mounting and the bias at the last refresh, and a vector calibrated outside stands until the next refresh |
| Calibration.LoadStaleExample | drivers/sensors/mlsdk/mllite/data_builder.c:84-99 | a concrete sensor whose cache disagrees with its bias after a load, even when the loaded bias is announced again |
| DataBuilder.SingleSensor.ApplyCalibration | drivers/sensors/mlsdk/mllite/data_builder.c:408-426 | both cached vectors become what recomputation gives and the calibrated bit is set |
| DataBuilder.Builder.constructor | drivers/sensors/mlsdk/mllite/data_builder.c:107-112 | the empty history, so all status words are zero, and no callback is registered |
| DataBuilder.Builder.BuildGyro | drivers/sensors/mlsdk/mllite/data_builder.c:648-666 | the sample is stored, calibrated and marked new, raw and on; the old time stamp is kept |
| DataBuilder.Builder.BuildAccel | drivers/sensors/mlsdk/mllite/data_builder.c:609-639 | a raw sample is stored cut to 16 bits, unchanged when it is in range, and calibrated; one calibrated outside is taken as it is with its accuracy; status bits, time stamps and saved accuracy accordingly |
| DataBuilder.Short | drivers/sensors/mlsdk/mllite/data_builder.c:620-625 | the one 16-bit word congruent to the sample modulo 2^16 |
| DataBuilder.ShortExact | drivers/sensors/mlsdk/mllite/data_builder.c:620-625 | a raw sample is kept as it is if and only if all three components are 16-bit words |
| DataBuilder.VectorExtra | drivers/sensors/mlsdk/mllite/data_builder.c:619-635 | a sample counts as calibrated in any case, and as raw if and only if it was not calibrated outside |
| DataBuilder.Builder.BuildCompass | drivers/sensors/mlsdk/mllite/data_builder.c:679-713 | as the accelerometer, a raw sample after its soft-iron correction |
| DataBuilder.Builder.BuildTemp | drivers/sensors/mlsdk/mllite/data_builder.c:721-738 | the temperature is stored and marked new, raw and on; the old time stamp is kept |
| DataBuilder.Builder.BuildQuat | drivers/sensors/mlsdk/mllite/data_builder.c:749-766 | the quaternion and its time stamp are stored; it is marked new, raw and on, and bias-applied when the caller says so |
| DataBuilder.Builder.GyroWasTurnedOff | drivers/sensors/mlsdk/mllite/data_builder.c:795-798 | all status bits of the gyroscope go, no others |
| DataBuilder.Builder.QuaternionWasTurnedOff | drivers/sensors/mlsdk/mllite/data_builder.c:787-790 | all status bits of the quaternion go, no others |
| DataBuilder.Builder.SetGyroBias | drivers/sensors/mlsdk/mllite/data_builder.c:519-543 | a new bias is saved and applied, an unchanged one is skipped, none leaves the bias alone; accuracy, the temperature of the bias and the compensation flag are saved in any case |
| DataBuilder.Builder.ExecuteOnData | drivers/sensors/mlsdk/mllite/data_builder.c:902-941 | exactly the callbacks due after the history so far are called, in array order, all of them despite errors, each seeing the status before the execute; the first error is returned; then the batch is marked contiguous |
| DataBuilder.Builder.CurrentMode | drivers/sensors/mlsdk/mllite/data_builder.c:915-925 | the mode word of the current status words, the quaternion tested as coded |
| DataBuilder.Builder.Dispatch | drivers/sensors/mlsdk/mllite/data_builder.c:927-936 | the loop calls the due callbacks in array order, none skipped after an error, and keeps the first error |
| DataBuilder.Builder.SetContiguous | drivers/sensors/mlsdk/mllite/data_builder.c:946-991 | new data becomes contiguous and is no longer new, for every sensor |
| DataBuilder.CallbacksDue | drivers/sensors/mlsdk/mllite/data_builder.c:929-936 | after any history the due callbacks are exactly the registered ones that require some reported sensor |
| DataBuilder.DueMembers | drivers/sensors/mlsdk/mllite/data_builder.c:929-930 | the due callbacks are those of the array whose required data meets the mode |
| DataBuilder.DueOrdered | drivers/sensors/mlsdk/mllite/data_builder.c:929-936 | they run in strict priority order |
| DataBuilder.FirstErrorMeaning | drivers/sensors/mlsdk/mllite/data_builder.c:931-940 | zero is returned if and only if none failed, and otherwise the code of the first that did |
| ResultsHolder.Results.constructor | drivers/sensors/mlsdk/mllite/results_holder.c:298-309 | all three quaternions are the identity and nothing is dirty |
| ResultsHolder.Results.StoreGaming | drivers/sensors/mlsdk/mllite/results_holder.c:59-64 | the input changes and its dirty bit is set; the cache is left alone |
| ResultsHolder.Results.SetCorrection | drivers/sensors/mlsdk/mllite/results_holder.c:71-76 | likewise for the compass correction |
| ResultsHolder.Results.Quaternion | drivers/sensors/mlsdk/mllite/results_holder.c:226-234 | recomputes the cache when a dirty bit is set, clears both, and returns the cache |
| ResultsHolder.Results.GravityVector | drivers/sensors/mlsdk/mllite/results_holder.c:199-210 | gravity of the cached quaternion through 32-bit words, which GravityIsVertical says is the vertical; nothing is recomputed |
| ResultsHolder.CacheInvariant | drivers/sensors/mlsdk/mllite/results_holder.c:59-234 | in every history the cache is the product of the last fetch, and a clean cache is the product of the current inputs |
| ResultsHolder.QuaternionIsLatestProduct | drivers/sensors/mlsdk/mllite/results_holder.c:226-234 | in every history, the initial state included, a fetch returns the product of the latest correction and the latest 6-axis quaternion |
| ResultsHolder.FetchedAfter | drivers/sensors/mlsdk/mllite/results_holder.c:199-234 | from a fetch until the next input the cache, and so gravity, is that of the latest inputs |
| ResultsHolder.GravityStale | drivers/sensors/mlsdk/mllite/results_holder.c:199-210 | an input set after the last fetch does not reach the cache |
| ResultsHolder.UpToDateIff | drivers/sensors/mlsdk/mllite/results_holder.c:199-234 | for any one product, the code's own included, the cache is that of the latest inputs if and only if the inputs at the last fetch and the latest ones have one product |
| ResultsHolder.GravityRightIff | drivers/sensors/mlsdk/mllite/results_holder.c:199-234 | it is so for every product that keeps the identity if and only if both inputs have the values they had at the last fetch |
| ResultsHolder.GravityIsVertical | drivers/sensors/mlsdk/mllite/results_holder.c:199-210 | the inner product of gravity with any vector is the vertical component of that vector rotated by the quaternion, up to (squared length - 1) v and 21 units, for squared lengths below 3/2 |
| ResultsHolder.FetchedGravityIsVertical | drivers/sensors/mlsdk/mllite/results_holder.c:199-234 | the same right after a fetch in any history, for the product of the latest inputs |
| ResultsHolder.DiagonalTurnGravity | drivers/sensors/mlsdk/mllite/results_holder.c:199-210 | a third of a turn about the diagonal puts gravity on the y axis |
| ResultsHolder.NegatedInputsExample | drivers/sensors/mlsdk/mllite/results_holder.c:226-234 | with both inputs negated since the last fetch the inputs differ and the code's product is still the cached one |
| ResultsHolder.GravityWrongExample | drivers/sensors/mlsdk/mllite/results_holder.c:199-234 | after a half turn of the correction that was not fetched gravity's last component is one, that of the latest inputs minus one |
| InputEventReader.CircularReader.constructor | drivers/sensors/InputEventReader.cpp:35-42 | an empty queue of the given capacity in a buffer twice as long |
| InputEventReader.CircularReader.Fill | drivers/sensors/InputEventReader.cpp:50-83 | whatever the read delivers is appended to the queue, nothing unread is overwritten, an error or a fragment changes nothing, and the code returned is the source's |
| InputEventReader.CircularReader.Advance | drivers/sensors/InputEventReader.cpp:68-77 | the index updates and the copy down append the events, also when the head stays at the end of the first half |
| InputEventReader.CircularReader.ReadEvent | drivers/sensors/InputEventReader.cpp:85-90 | says whether an event is unread and where the oldest one is |
| InputEventReader.CircularReader.Next | drivers/sensors/InputEventReader.cpp:92-99 | removes exactly the oldest event |
| NvsInput.Input.SetEnabled | drivers/sensors/nvs_input.cpp:148-167 | the flag changes when there is no node to write or the write succeeds, otherwise the failure is returned and nothing changes |
| NvsInput.Input.ReadEvents | drivers/sensors/nvs_input.cpp:203-234 | bad arguments, a disabled sensor and a failed or fragmentary read return their codes; a read that succeeds returns min(count, EV_SYNs buffered and read), and that many outputs, those of the fold, are appended and in the caller's array |
| NvsInput.Input.TakeEvents | drivers/sensors/nvs_input.cpp:215-233 | the part after the read consumes from the queue and appends to the outputs what the specification says, at most `count` |
| NvsInput.Input.Drain | drivers/sensors/nvs_input.cpp:218-233 | the loop consumes as many events as the specification says and writes exactly their outputs |
| NvsInput.Input.ProcessEvent | drivers/sensors/nvs_input.cpp:236-243 | the scaled value goes to the cell of its axis, codes beyond Z to cell 0 |
| NvsInput.ConsumedMeaning | drivers/sensors/nvs_input.cpp:218-232 | a call emits at most `count` outputs, leaves events only when it emitted `count`, and stops right after the last EV_SYN |
| NvsInput.FoldAppend | drivers/sensors/nvs_input.cpp:218-232 | splitting a stream anywhere does not change the outputs |
| NvsInput.OneOutputPerSync | drivers/sensors/nvs_input.cpp:221-226 | there is one output per EV_SYN |
| NvsInput.PendingIsLatest | drivers/sensors/nvs_input.cpp:219-220 | the pending event holds on every axis the latest value seen |
| NvsInput.OutputAtSync | drivers/sensors/nvs_input.cpp:219-226 | the output of each EV_SYN carries its time and on every axis the latest value before it |
| NvsInput.RunConserves | drivers/sensors/nvs_input.cpp:203-234 | for any sequence of calls, any split into reads and any counts: consumed plus buffered is all that was read, and the outputs are the one-pass fold over the consumed events |
| NvsInput.RunReceives | drivers/sensors/nvs_input.cpp:203-216 | what has been received is exactly the events of all successful reads made while enabled, in order |
| NvsInput.ReadEmits | drivers/sensors/nvs_input.cpp:211-233 | a call that reads makes exactly min(count, EV_SYNs in the buffer and in what it read) outputs |
| NvsInput.RunOutputs | drivers/sensors/nvs_input.cpp:203-234 | the outputs of any run are the one-pass fold over everything that arrived while enabled, cut to the number the calls owe, with no mention of a buffer |
| NvsInput.SampleComesOut | drivers/sensors/nvs_input.cpp:219-243 | three axis events of either kind and an EV_SYN make one output with the three values divided into the first three cells |
| NvsInput.StrayEvents | drivers/sensors/nvs_input.cpp:219-243 | a code beyond Z acts as code 0, and an event of another kind changes nothing |
| AccelWindow.SumSlides | drivers/sensors/MPLSensor.cpp:1436-1448 | taking the oldest sample out and the newest in gives the sum of the last ten |
| AccelWindow.StoreTracks | drivers/sensors/MPLSensor.cpp:1434-1455 | storing a sample keeps index, fullness, sums and cells those of the samples since the reset |
| AccelWindow.RunTracks | drivers/sensors/MPLSensor.cpp:1376-1468 | from the first reset on, in every run of samples, resets and rate writes that may fail, the sums are those of the samples since the last reset, or of the last ten |
| AccelWindow.IdleInRuns | drivers/sensors/MPLSensor.cpp:1385-1468 | in every such run an update moves to the idle period if and only if the rate write succeeds and ten samples stand since the reset, the period is not below the default and the newest sample is within the threshold of their mean on all axes, or the idle period is what the clients ask for |
| AccelWindow.PeriodInRuns | drivers/sensors/MPLSensor.cpp:1434-1468 | in every such run the period after an update is the old one when the rate write fails, the idle one when the device is steady, and what the clients ask for otherwise, so an idle device leaves the idle period on motion |
| AccelWindow.PeriodAfterUpdate | drivers/sensors/MPLSensor.cpp:1455-1466 | the same for one update; steady is within a fifth of the sample before on every axis while idle, and otherwise within a fifth of the mean of the last ten, at a period not below the default |
| AccelWindow.StartsOverIff | drivers/sensors/MPLSensor.cpp:1461-1466 | the window starts over if and only if the device is not steady and the clients ask for another period |
| AccelWindow.JoltEndsIdleExample | drivers/sensors/MPLSensor.cpp:1461-1466 | one jolt takes an idle device at rest to the default period |
| AccelWindow.IdleExactlyWhen | drivers/sensors/MPLSensor.cpp:1455-1466 | the same for one update of any window that tracks its samples |
| AccelWindow.IdleWhileUnstableExample | drivers/sensors/MPLSensor.cpp:1455-1466 | an empty window at the default period that is not stable goes idle because the clients ask for that period |
| AccelWindow.IdleComparesNeighbours | drivers/sensors/MPLSensor.cpp:1395-1410 | while idle, stability compares the newest sample with the one before it, right after a reset with the last cell's old content |
| AccelWindow.MPLSensor.constructor | drivers/sensors/MPLSensor.cpp:94-119 | index 0 and not full; sum, cells and period are arbitrary, as the source leaves them unset |
| AccelWindow.MPLSensor.ResetAccelWindow | drivers/sensors/MPLSensor.cpp:1376-1383 | the window is empty and its sums zero, cells and period kept |
| AccelWindow.MPLSensor.WriteAccelFifoRate | drivers/sensors/MPLSensor.cpp:1357-1374 | the outcome of the write is returned, and only a success changes the period and announces the rate in microseconds, the period first cut to 32 bits |
| AccelWindow.MicrosMeaning | drivers/sensors/MPLSensor.cpp:1357-1374 | the announced rate is the whole number of microseconds for every period 32 bits hold, rounded towards zero |
| AccelWindow.MicrosWrapsExample | drivers/sensors/MPLSensor.cpp:1357-1374 | a period of 2^32 ns and a microsecond is announced as one microsecond |
| AccelWindow.MPLSensor.IsDeviceOrientationStable | drivers/sensors/MPLSensor.cpp:1385-1432 | false at fast periods; the neighbour test when idle; else full and near the mean |
| AccelWindow.MPLSensor.UpdateAccelWindow | drivers/sensors/MPLSensor.cpp:1434-1468 | one sample takes the fields to the state the specification gives, the order of test, index step and reset included; motion detection goes on with the move to idle and off when the window starts over |
| TimeoutPoker.StepKeeps | common/power/timeoutpoker.cpp:107-173 | every step of any thread keeps the invariant of keys, lives, closing events and the looper thread |
| TimeoutPoker.ReachableKeeps | common/power/timeoutpoker.cpp:107-173 | the invariant holds in every state of every run |
| TimeoutPoker.PushIsDue | common/power/timeoutpoker.cpp:86-114 | a request enters under a new key, is due at once and touches nothing else |
| TimeoutPoker.KeysArePending | common/power/timeoutpoker.cpp:107-127 | in every reachable state the table's keys are exactly those of the looper's messages, the one in delivery included |
| TimeoutPoker.ExactlyOneTimeout | common/power/timeoutpoker.cpp:159-168 | in every reachable state an open descriptor has exactly one closing event, or none while the looper thread has it in hand |
| TimeoutPoker.ClosedOnTime | common/power/timeoutpoker.cpp:159-173 | no `close` ever hits a descriptor that is not open, and none comes before opening time plus timeout |
| TimeoutPoker.LifeContinues | common/power/timeoutpoker.cpp:159-173 | along a run a descriptor's opening is kept and its end, once there, too: each is closed at most once |
| TimeoutPoker.StaysOpen | common/power/timeoutpoker.cpp:159-168 | a descriptor stays open, as the same life, until its time |
| TimeoutPoker.DrainedIsClosed | common/power/timeoutpoker.cpp:142-157 | with the table empty and the looper thread idle every descriptor ever opened has been closed |
| TimeoutPoker.NeverStuck | common/power/timeoutpoker.cpp:142-157 | while something is left and everything is due, the looper thread has a step to take |
| TimeoutPoker.CatchesUp | common/power/timeoutpoker.cpp:142-173 | without new requests the looper thread takes at most a known number of steps, and after that many nothing is queued and every descriptor is closed |
| PokeHandlers.PokeHandler.constructor | common/power/timeoutpoker.cpp:134-142 | no event, no message, keys from zero |
| PokeHandlers.PokeHandler.GenerateNewKey | common/power/timeoutpoker.cpp:129-132 | the key is the old counter, which grows by one |
| PokeHandlers.PokeHandler.SendEventDelayed | common/power/timeoutpoker.cpp:107-114 | event and message enter under the same new key, the message due after the delay |
| PokeHandlers.PokeHandler.RemoveEventByKey | common/power/timeoutpoker.cpp:116-127 | the event of the key is taken out and returned, or nothing |
| PokeHandlers.PokeHandler.OpenPmQosNode | common/power/timeoutpoker.cpp:53-62 | a descriptor that opened starts a life with the node, the value and the time; a failed open changes nothing |
| PokeHandlers.PokeHandler.OpenPmQosTimed | common/power/timeoutpoker.cpp:159-168 | a descriptor that opened gets a closing event after the timeout, a failed open nothing |
| PokeHandlers.PokeHandler.TimeoutRequest | common/power/timeoutpoker.cpp:170-173 | the descriptor is closed |
| PokeHandlers.PokeHandler.Run | common/power/timeoutpoker.h:51-106 | an opening event opens and schedules, a closing event closes |
| PokeHandlers.PokeHandler.HandleMessage | common/power/timeoutpoker.cpp:144-157 | one message takes the object through the looper thread's steps and keeps the invariant |
| PokeHandlers.PokeHandler.RequestPmQosTimed | common/power/timeoutpoker.cpp:86-91 | an opening event is queued with no delay |
| PokeHandlers.HandledMeaning | common/power/timeoutpoker.cpp:144-173 | handling an opening message opens the descriptor with what was asked and schedules its closing after the timeout; handling a closing message closes exactly its own |
| PowerHints.AcceptedApart | common/power/nvpowerhal.cpp:84-104 | accepted hints of one kind are at least the interval apart, unless the clock read zero at the first |
| PowerHints.TurnedAwayOnlySoon | common/power/nvpowerhal.cpp:97-99 | a hint is turned away only when one was accepted less than the interval before |
| PowerHints.ElapsedMeaning | common/power/nvpowerhal.cpp:84-104 | the elapsed time is the difference of the clock readings modulo 2^64 |
| PowerHints.LeadsCovers | common/power/nvpowerhal.cpp:805-817 | in every run of hints, requests and looper steps the coverage invariant holds |
| PowerHints.AlwaysBoosted | common/power/nvpowerhal.cpp:222-227 | with hints at most 10 ms apart, a looper that opens at once and opens that succeed, the interaction boost is open at every instant from the first hint on, whatever the limiter turned away |
| PowerHints.TenMillisecondsIsTight | common/power/nvpowerhal.cpp:222-227 | with hints allowed one nanosecond further apart there is a run, for any frequencies, in which the hints keep coming and the boost lapses between them |
| PowerHints.PowerHal.constructor | common/power/nvpowerhal.cpp:222-227 | no hint has a time yet, the interaction interval is 90 ms and the others are as given |
| PowerHints.PowerHal.CheckHint | common/power/nvpowerhal.cpp:84-104 | -1 for an unknown hint or one too soon after the last, with the unsigned difference of the clock; else the clock |
| PowerHints.PowerHal.InteractionHint | common/power/nvpowerhal.cpp:805-817 | an accepted interaction hint queues the 100 ms and the 1200 ms request and records its time, one turned away does neither; other hints' times are untouched |
| HintsThread.StepKeeps | common/power/nvpowerhal.cpp:517-707 | every step of the caller, the worker and the clock keeps the protocol's invariant |
| HintsThread.AtMostOneWorker | common/power/nvpowerhal.cpp:592-612 | in every reachable state at most one worker is alive, the one behind the handle |
| HintsThread.AtMostOneMoreRound | common/power/nvpowerhal.cpp:527-564 | once the exit flag is set the worker finishes at most one more round of hints |
| HintsThread.JoinReturns | common/power/nvpowerhal.cpp:566-589 | no lost wakeup blocks the join: while it waits only the worker can step, it can, and it ends after at most seven steps |
| HintsThread.NoDeadlock | common/power/nvpowerhal.cpp:566-612 | inside a call, the caller can go on or the worker holding what it waits for can |
| HintsThread.AfterReset | common/power/nvpowerhal.cpp:652-707 | when the reset hint has returned there is no worker, none can start before the next call, the handle is clear, target_fps is 0, fd_gpu and usecase_index are -1 |
| HintsThread.HintsGoOnExactlyWhen | common/power/nvpowerhal.cpp:535-560 | between calls the regular hints go on if and only if a thread was launched and not woken spuriously since |
| HintsThread.RoundAfterTimeout | common/power/nvpowerhal.cpp:527-564 | a timeout makes the worker send one round of hints and wait again; a target without a descriptor gets one |
| HintsThread.NoneUnlessAsked | common/power/nvpowerhal.cpp:660-707 | in every run no thread is started unless an FPS hint or a use case with throughput hints is given |
| HintsThread.DescriptorKept | common/power/nvpowerhal.cpp:401-427 | in every run without a reset a frame rate descriptor that is set up stays the same |
| HintsThread.HintsAreStored | common/power/nvpowerhal.cpp:614-658 | in every run without a reset the use case is the latest one given and the frame rate target is 30 from the first FPS hint on |
| HintsThread.NeverRelaunched | common/power/nvpowerhal.cpp:596-602 | after a spurious wakeup no call but a reset brings them back |
| HintsThread.HintsCanBeLost | common/power/nvpowerhal.cpp:535-602 | a concrete run whose FPS hint returns with the target set, the handle in place and no thread |
| CameraPowers.CameraPower.constructor | common/power/nvpowerhal.cpp:118-132 | no thread, no target, no use case |
| CameraPowers.CameraPower.SetCameraFps | common/power/nvpowerhal.cpp:401-427 | the target is set up once and then only modified |
| CameraPowers.CameraPower.SetCameraHint | common/power/nvpowerhal.cpp:614-708 | a whole call returns whatever the worker was doing; a reset leaves no thread and the first values, any other hint stores its target or use case, sets the descriptor up only as the first FPS hint, keeps a handle that is there, gets one exactly when it asks for the hints and a thread can be created, and afterwards the hints go on if and only if there is a handle and its thread was not woken spuriously |
| CameraPowers.CameraPower.Switch | common/power/nvpowerhal.cpp:614-658 | each hint stores its use case or target, or resets |
| CameraPowers.CameraPower.Lock | common/power/nvpowerhal.cpp:572-596 | a worker that holds the lock lets go of it, and taking it changes nothing but the owner and the worker's place |
| CameraPowers.CameraPower.SendRegularHints | common/power/nvpowerhal.cpp:592-612 | a thread is created, under the lock, exactly when the handle is clear and creation succeeds; target, use case and descriptor are kept |
| CameraPowers.CameraPower.CreateThread | common/power/nvpowerhal.cpp:598-607 | the part under the lock is one step of the protocol |
| CameraPowers.CameraPower.WaitForRegularHintsThread | common/power/nvpowerhal.cpp:566-589 | it returns, and then no thread is alive, the handle is clear and the exit flag is down |
| CameraPowers.CameraPower.Join | common/power/nvpowerhal.cpp:586 | the join ends: the worker is gone after finishing at most one round since the flag was set |
| CameraPowers.CameraPower.Signal | common/power/nvpowerhal.cpp:575 | the worker that waits, if any, is woken, and the caller goes on to the join |
| CameraPowers.CameraPower.ResetCameraHint | common/power/nvpowerhal.cpp:477-515 | fd_gpu, target_fps and usecase_index go back to their first values |
| CameraPowers.CameraPower.WorkerGoesOn | common/power/nvpowerhal.cpp:517-564 | the worker's code between two points of interleaving is one step of the protocol |

## Left out

- Register: requires the total size to stay below 2^31; the wrap of `total_size` beyond it is not modelled.
- Load: requires that the sizes an image claims stay inside readable memory, which the source trusts, and that no inner header stepped over under an unknown key has a size of -12 or less: at -12 the source's loop does not end, below it the cursor goes backwards. Any other negative size is covered, and so is an outer size other than `length`.
- LoadAllBoxes, LoadRest and CheckBox: the same condition on the body they are given.
- EveryDeliveryIntact: the same condition on the image.
- Store: a load or save callback copies exactly `size` bytes between the image and one record; other callbacks, and their return values (which the source ignores), are not modelled.
- ExecuteOnData: a callback is an integer code; callbacks that change the sensors or the callback array are not modelled.
- ApplyCalibration: computes over unbounded integers; `Calibration.NothingOverflows` says for which inputs the 32-bit words hold the same.
- BuildCompass: the soft-iron output is a parameter, its matrix arithmetic is not modelled.
- SetGyroBias: without the message it sends; the accelerometer's and the compass's versions are alike.
- Dispatch: as for ExecuteOnData.
- Builder: its constructor does not register the save and load functions and does not reset the soft-iron matrix.
- Run: an event is a timed opening or a closing; the event that opens a handle belongs to the pipe-based path below.
- SetCameraFps: one step of the protocol; the source lets the caller and the worker interleave inside it, between reading and writing fd_gpu.
- SetCameraHint and Switch: run against a worker that goes on while the caller waits; other interleavings are those of `HintsThread`. The frequency, core-count and throughput requests of the camera hints are not modelled, only what decides about the thread, the GPU target and the use case.
- InteractionHint: only this hint of `common_power_hint`; the others queue their own requests and add nothing new. The 32-bit product in the clock reading is replaced by ideal time.
- ToBody and ToChip over unbounded integers are the reference for the 32-bit conversions; a negative -2^31 is taken to wrap, as the target's multiplication does.
- Float arithmetic of the accelerometer window and of the axis values is over `real`, so rounding is not captured.
- `inv_matrix_det` and `inv_matrix_det_inc`, the `float` twins of the determinant, are not modelled.
- Six-row matrices: a six-row matrix copies one line past its six-row minor storage, so the determinant is stated for two to five rows, as its callers use it.
- The determinant for one row or fewer, on which the source recursion does not end.
- `UMPL_ELIMINATE_64BIT`, `INV_PLAYBACK_DBG` and `PHS_DEBUG` builds.
- The looper is assumed to deliver each message once and not early; `mKey` is unbounded, so its wrap is not modelled.
- The pipe-based handle path of the poker (`createHandleForFd`, `pipeCloseCb`) and untimed requests.
- One thread makes the camera hints, as the protocol of the source needs; `pthread_create` is taken to leave the handle alone when it fails.
- Timing of the worker: a wait may time out at any moment.
- Board configuration, sysfs plumbing, the light, proximity, temperature and pressure drivers, the MPL modules without source, orientation and filter code in floating point.
