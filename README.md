# synheart-emotion core, modelled in Dafny

This project models the on-device emotion inference core of the synheart-emotion
Python SDK and proves properties of that model. The SDK takes a stream of wrist
samples, each with a heart rate, its RR intervals and optional motion values. It
keeps a sliding time window of the samples. Every step interval it computes three
heart-rate-variability features from the window: mean heart rate, SDNN and RMSSD.
It normalises those features and runs a linear SVM (one-vs-rest) with a softmax,
then emits the most probable of the labels "Amused", "Calm" and "Stressed".

Modules, one per source file plus three small support modules:

- `Errors`: `Option`, `Result`, and the error kinds the core raises.
  `BadInput`, `ModelIncompatible(expected, actual)` and `ValueError` stand for
  the SDK's `BadInputError`, `ModelIncompatibleError` and the Python `ValueError`.
- `Numerics`: real-number helpers such as `Sum`, `Mean`, `MaxOf` and `MinOf`.
  It also defines `FloatOps`, the `exp`, `sqrt` and `isfinite` functions, which are
  passed in as parameters. The ghost predicates `IsExp` and `IsSqrt` say what the
  proofs assume of them.
- `Dicts`: an insertion-ordered Python dict as a sequence of key/value pairs.
  `FromZip` is the dict comprehension over `zip`.
- `Features`: `FeatureExtractor`, meaning RR cleaning, HR mean, SDNN, RMSSD,
  feature validation and z-score normalisation.
- `Models`: `LinearSvmModel`, meaning construction checks, `validate`,
  `predict`, `_softmax`, metadata and the default model.
- `Results`: `EmotionResult.from_inference`, meaning top-1 selection with
  first-key tie-break.
- `Config`: `EmotionConfig` and its defaults.
- `Engine`: `EmotionEngine`, a class with the mutable window buffer and the last
  emission time. Its methods are `Push`, `TrimBuffer`, `ConsumeReady`,
  `ExtractWindowFeatures`, `GetBufferStats`, `Clear` and `FromPretrained`.
  - `Push` and `TrimBuffer` are proved against `Trimmed`.
  - `ExtractWindowFeatures` is proved against `WindowFeatures`.
  - `ConsumeReady` is proved against `Emission`.
  - Its helper loops are proved against functions too: `AccumulateMotion`
    against `AddMotion`, and `CollectWindow` against `HrValues`, `AllRr` and
    `MotionAggregate`.
  - `GetBufferStats`, `Clear` and `FromPretrained` state their results directly
    in their ensures.

  The lemmas beside these methods state what the engine promises.

How the model represents the source:

- Times are integer milliseconds.
- The wall clock (`datetime.now()`) is an explicit `now` parameter.
- `window_seconds` and `step_seconds` are `windowMs` (60000) and `stepMs` (5000).
- Floating-point values are Dafny `real`.

Points where the code and its documentation differ (the model follows the code):

- `_trim_buffer` only pops from the front of the buffer. A stale sample that
  arrived behind a fresh one therefore stays in the window. `TrimmedSuffix` and
  `TrimmedStopsAtFresh` state exactly what is kept, and a window is all-fresh only
  when the buffer is ordered by time (`TrimmedSorted`).
- `consume_ready` never trims. A consume long after the last push predicts on
  the window as that push left it: `ConsumeReady` leaves the buffer unchanged, and
  `Emission` reads that untrimmed buffer.
- The `BadInputError` for a missing feature inside `predict`'s loop cannot
  happen. `validate_features` has already checked every name, so `Predict`
  proves that branch dead.
- `LinearSvmModel.validate` checks the column count only when the weight matrix
  has a first row that is not empty.

## Model

| member | source | states |
|---|---|---|
| Features.CleanRrIntervals | sdks/python/src/synheart_emotion/features.py:118-149 | the loop returns exactly `Clean(rr)`: the values in 300..2000 ms, each within 250 ms of the previous kept value |
| Features.CleanIsChain | sdks/python/src/synheart_emotion/features.py:137-147 | every cleaned value is in range and every neighbour gap is at most 250 ms |
| Features.CleanFixpointIff | sdks/python/src/synheart_emotion/features.py:137-147 | cleaning leaves a sequence unchanged if and only if it already is such a chain |
| Features.CleanIdempotent | sdks/python/src/synheart_emotion/features.py:131-149 | cleaning twice equals cleaning once |
| Features.CleanIsSubsequence | sdks/python/src/synheart_emotion/features.py:131-149 | the cleaned list is an order-preserving subsequence of the input, so it is never longer |
| Features.CleanExamples | sdks/python/tests/test_features.py:47-63 | the test's sample loses 100 and 3000 and keeps 800, 820, 810 in order; a 700 ms jump is dropped as an artifact |
| Features.HrMean | sdks/python/src/synheart_emotion/features.py:30-41 | 0.0 for no values; otherwise a mean that lies between the smallest and the largest value (bounds in HrMeanFacts) |
| Features.HrMeanFacts | sdks/python/src/synheart_emotion/features.py:30-41 | 0 for no samples; the test lists give 70, 71 and 71.25; a mean of values within bounds lies within them |
| Features.Sdnn | sdks/python/src/synheart_emotion/features.py:44-62 | 0.0 with fewer than two raw or cleaned intervals, never negative; SdnnFacts adds the square and positivity |
| Features.SdnnFacts | sdks/python/src/synheart_emotion/features.py:44-62 | 0 with fewer than two raw or cleaned intervals; otherwise a non-negative value whose square is the sample variance (ddof=1), positive when two cleaned intervals differ |
| Features.SampleVarianceSign | sdks/python/src/synheart_emotion/features.py:56-62 | the sample variance is non-negative, and positive when two cleaned intervals differ |
| Features.Rmssd | sdks/python/src/synheart_emotion/features.py:65-87 | 0.0 with fewer than two raw or cleaned intervals, otherwise within [0, 250], the jump limit; RmssdFacts adds the square and positivity |
| Features.RmssdFacts | sdks/python/src/synheart_emotion/features.py:65-87 | 0 with fewer than two raw or cleaned intervals; otherwise a value in [0, 250] whose square is the mean squared successive difference, positive when two cleaned intervals differ |
| Features.RootMeanSquaredDiffOfChain | sdks/python/src/synheart_emotion/features.py:82-87 | on a cleaned chain the root mean squared successive difference lies in [0, 250] and is positive when two values differ |
| Features.MeanSquaredDiffOfChain | sdks/python/src/synheart_emotion/features.py:82-86 | the mean squared successive difference of a chain is at most 250^2 and positive when some step differs |
| Features.HrvTestExample | sdks/python/tests/test_features.py:20-44 | the test sample gives positive SDNN and RMSSD, and extract_features returns the three keys with hr_mean 70 |
| Features.ExtractFeatures | sdks/python/src/synheart_emotion/features.py:90-115 | the keys are hr_mean, sdnn and rmssd plus every motion key |
| Features.ExtractFeaturesValues | sdks/python/src/synheart_emotion/features.py:105-115 | each of the three features holds its extractor's value, and motion values are copied through |
| Features.ValidateFeatures | sdks/python/src/synheart_emotion/features.py:152-168 | true if and only if every required name is present with a finite value |
| Features.FeaturesValidExamples | sdks/python/tests/test_features.py:66-79 | all three present is valid; a missing rmssd is invalid |
| Features.NormalizeFeatures | sdks/python/src/synheart_emotion/features.py:171-202 | the loop returns the same keys; a value with both stats becomes (x - mean) / std when std > 0 and 0 otherwise; a value without stats is kept |
| Features.NormalizeRoundTrip | sdks/python/src/synheart_emotion/features.py:189-200 | for a std above 0, mean plus std times the normalised value gives the original back; values without stats pass through |
| Features.NormalizeExample | sdks/python/tests/test_features.py:82-93 | the test's inputs keep their keys; hr_mean below its mean turns negative and sdnn near its mean turns near 0 |
| Dicts.FromZip | sdks/python/src/synheart_emotion/models.py:108 | the comprehension never stores a key twice, and every key comes from the labels |
| Dicts.FromZipCovers | sdks/python/src/synheart_emotion/models.py:108 | every zipped label becomes a key of the comprehension |
| Dicts.FromZipLastWins | sdks/python/src/synheart_emotion/models.py:108 | a label that does not occur again later holds its own value, so a repeated label holds the value of its last occurrence |
| Dicts.FromZipDistinct | sdks/python/src/synheart_emotion/models.py:108 | with distinct labels the comprehension keeps every (label, probability) pair, in label order |
| Models.Create | sdks/python/src/synheart_emotion/models.py:27-53 | succeeds exactly when the shapes agree; otherwise ModelIncompatible with the source's (expected, actual) counts in the source's order, or ValueError (the ragged-rows case is pinned down in CreateRejects) |
| Models.CreateRejects | sdks/python/src/synheart_emotion/models.py:39-44 | each of the three dimension mismatches yields its own ModelIncompatible error; ragged rows that pass them yield ValueError |
| Models.CreateDefault | sdks/python/src/synheart_emotion/models.py:151-183 | the default model is well formed, with labels Amused/Calm/Stressed and features hr_mean/sdnn/rmssd |
| Models.Validate | sdks/python/src/synheart_emotion/models.py:126-149 | true only with one weight row and one bias per label, rows of equal length, and every value finite; on a well-formed model exactly when every value is finite |
| Models.ValidateFacts | sdks/python/src/synheart_emotion/models.py:126-149 | validate is false on each dimension mismatch; on a well-formed model it is true exactly when all weights and biases are finite |
| Models.Predict | sdks/python/src/synheart_emotion/models.py:55-87 | the loop-built feature vector yields exactly `Prediction`; the missing-feature raise is unreachable |
| Models.PredictionRejectsInvalid | sdks/python/src/synheart_emotion/models.py:68-69 | prediction fails if and only if the features are invalid or the model has no labels |
| Models.PredictionDependsOnlyOnModelFeatures | sdks/python/src/synheart_emotion/models.py:72-79 | two feature maps that agree on the model's feature names give the same prediction |
| Models.Margins | sdks/python/src/synheart_emotion/models.py:84 | one margin per class; margin c is bias c plus the sum over features of weight times value |
| Models.SoftmaxSimplex | sdks/python/src/synheart_emotion/models.py:89-106 | every probability lies in (0, 1] and the probabilities sum to 1 |
| Models.SoftmaxOrder | sdks/python/src/synheart_emotion/models.py:99-106 | softmax preserves order: a smaller margin gives a smaller probability and conversely, equal margins give equal probabilities |
| Models.SoftmaxArgmax | sdks/python/src/synheart_emotion/models.py:99-106 | the class with the largest margin has the largest probability |
| Models.Probabilities | sdks/python/src/synheart_emotion/models.py:99-106 | one probability per margin, each in (0, 1] (SoftmaxSimplex adds that they sum to 1) |
| Models.Softmax | sdks/python/src/synheart_emotion/models.py:89-108 | fails with ValueError exactly on no margins; with distinct labels, one per margin, the dict is keyed by the labels in order, with the probabilities as values |
| Models.PredictionShape | sdks/python/src/synheart_emotion/models.py:55-108 | valid features and distinct, non-empty labels give a result keyed by the labels, whose values are the softmax of the margins and sum to 1 |
| Models.DefaultModelAtMeans | sdks/python/src/synheart_emotion/models.py:162-183 | the default model on features at its means predicts successfully and rates Calm most probable |
| Results.TopIndex | sdks/python/src/synheart_emotion/result.py:47 | the index of the first maximal probability |
| Results.TopIndexUnique | sdks/python/src/synheart_emotion/result.py:47 | only one index is both maximal and strictly above everything before it |
| Results.FromInference | sdks/python/src/synheart_emotion/result.py:27-57 | fails exactly on an empty dict; otherwise the emotion and confidence are the first maximal entry and the other fields pass through |
| Results.FromInferenceChoosesKey | sdks/python/src/synheart_emotion/result.py:47-48 | the pair (emotion, confidence) is an entry of the dict, so the confidence is that key's own probability, and it is at least every other probability |
| Results.FromInferenceTieBreak | sdks/python/src/synheart_emotion/result.py:47 | among equal maxima the first in insertion order wins |
| Results.FromInferenceTieExample | sdks/python/src/synheart_emotion/result.py:47 | Calm then Amused at 0.5 each gives Calm |
| Engine.TrimmedSuffix | sdks/python/src/synheart_emotion/engine.py:245-254 | trimming keeps a suffix of the buffer: every dropped sample was stale and the new front is fresh |
| Engine.TrimmedIdempotent | sdks/python/src/synheart_emotion/engine.py:252-254 | trimming twice at the same cutoff equals trimming once |
| Engine.TrimmedSorted | sdks/python/src/synheart_emotion/engine.py:252-254 | on a time-ordered buffer every kept sample is at or after the cutoff |
| Engine.TrimmedKeepsFreshLast | sdks/python/src/synheart_emotion/engine.py:141-144 | a sample pushed with a timestamp inside the window is still there after the trim |
| Engine.TrimmedStopsAtFresh | sdks/python/src/synheart_emotion/engine.py:253-254 | trimming stops at a fresh front sample: a stale sample behind it is kept |
| Engine.AllRrLength | sdks/python/src/synheart_emotion/engine.py:215-217 | the concatenated RR list has as many entries as the per-sample counts add up to |
| Engine.RrCountAtLeastCount | sdks/python/src/synheart_emotion/engine.py:129-131 | since every accepted sample has RR intervals, the window's RR count is at least its sample count |
| Engine.MotionAggregateIsTotal | sdks/python/src/synheart_emotion/engine.py:219-222 | a key is aggregated exactly when some sample carries it, and its value is that key's total over the window |
| Engine.WindowFeaturesPresent | sdks/python/src/synheart_emotion/engine.py:201-230 | window features exist exactly when the buffer is non-empty and holds at least min_rr_count RR intervals |
| Engine.WindowFeaturesValues | sdks/python/src/synheart_emotion/engine.py:215-243 | the keys are hr_mean, sdnn, rmssd and the aggregated motion keys; a motion key holds the window's aggregate for it, and hr_mean, from motion or from the HR mean, is lowered by the baseline when one is set; sdnn and rmssd, unless motion replaces them, are those of all the window's RR intervals |
| Engine.EmissionNotReady | sdks/python/src/synheart_emotion/engine.py:161-175 | no result inside the step interval, with fewer than two samples, or with too few RR intervals |
| Engine.EmissionShape | sdks/python/src/synheart_emotion/engine.py:178-189 | an emitted result is stamped now, carries the window features and the model metadata, and comes from the model's prediction |
| Engine.EmissionFollowsLabelOrder | sdks/python/src/synheart_emotion/engine.py:178-186 | for an emitted result with distinct labels: the probabilities are keyed by the labels and sum to 1; the lemma returns the position k of the emotion among the labels, whose probability is the confidence, no label exceeds it and every earlier label falls short of it; the confidence is in (0, 1] |
| Engine.EmissionReady | sdks/python/src/synheart_emotion/engine.py:161-189 | for a well-formed model, a result is emitted when the throttle is open, the window has two samples and valid features, and the model has at least one label |
| Engine.HasRequiredFeaturesIff | sdks/python/src/synheart_emotion/engine.py:88-99 | the compatibility check passes exactly when the model's feature names are a permutation of hr_mean, sdnn, rmssd |
| Engine.CompatibleModelFeaturesPresent | sdks/python/src/synheart_emotion/engine.py:88-99 | a compatible model asks only for features the extractor produces |
| Engine.EmotionEngine.constructor | sdks/python/src/synheart_emotion/engine.py:39-63 | a new engine has an empty buffer, no last emission, and the given config and model |
| Engine.EmotionEngine.FromPretrained | sdks/python/src/synheart_emotion/engine.py:85-101 | uses the given model or the default; fails with ModelIncompatible(3, count) exactly when the required features are missing |
| Engine.EmotionEngine.Push | sdks/python/src/synheart_emotion/engine.py:103-149 | an out-of-range HR or an empty RR list leaves the state unchanged; otherwise the sample is appended and the buffer trimmed to the window |
| Engine.EmotionEngine.TrimBuffer | sdks/python/src/synheart_emotion/engine.py:245-254 | the loop leaves the buffer equal to `Trimmed(old buffer, now - windowMs)` |
| Engine.EmotionEngine.AccumulateMotion | sdks/python/src/synheart_emotion/engine.py:220-222 | adds each motion value to the aggregate, starting absent keys at 0 |
| Engine.EmotionEngine.CollectWindow | sdks/python/src/synheart_emotion/engine.py:211-222 | the loop gathers the window's HR values, concatenated RR intervals and motion totals |
| Engine.EmotionEngine.ExtractWindowFeatures | sdks/python/src/synheart_emotion/engine.py:201-243 | returns exactly `WindowFeatures` of the current buffer and changes nothing |
| Engine.EmotionEngine.ConsumeReady | sdks/python/src/synheart_emotion/engine.py:151-199 | returns at most one result, exactly when `Emission` gives one; last emission becomes now only then; the buffer is untouched |
| Engine.EmotionEngine.GetBufferStats | sdks/python/src/synheart_emotion/engine.py:256-280 | zeros for an empty buffer; otherwise the count, the RR total, first-to-last duration and HR bounds over the window |
| Engine.EmotionEngine.BufferStatsInRange | sdks/python/src/synheart_emotion/engine.py:256-280 | on a valid engine the HR range lies within 30..300 with min at most max, and there are at least as many RR intervals as samples |
| Engine.EmotionEngine.Clear | sdks/python/src/synheart_emotion/engine.py:282-287 | empties the buffer and forgets the last emission |
| Engine.EngineScenario | sdks/python/tests/test_engine.py:9-135 | the engine test sequence: creation, a consume on the empty engine, a push, buffer stats, a one-sample consume that emits nothing, rejected invalid HR and empty RR pushes, and a repeated clear |

## Left out

- Floating point is modelled as exact real arithmetic. Rounding, NaN and infinity are not modelled, except that `isfinite` is a parameter of `Validate`, `FeaturesValid` and `ModelFinite`. In Python a NaN heart rate passes `push`'s range check, because both comparisons are false. Here every heart rate is a real number.
- `exp` and `sqrt` are abstract parameters. The proofs assume only that exp is positive and strictly increasing, and that sqrt is a non-negative square root.
- The engine's lock, the `on_log` callback and all log messages are left out, because they do not affect results in a single thread.
- `datetime` values are integer milliseconds, and the model passes in what the source reads from the clock. Sub-millisecond precision and the `int()` truncation of the duration are therefore not modelled.
- `push` copies the RR list but stores the caller's motion dict by reference. The model stores motion maps as values, so aliasing is not modelled.
- The features, mean, std and motion dicts are Dafny `map`s, so their insertion order is not modelled. That order shows only in the order of `result.features`; no computation in the core depends on it. Only the label-keyed probability dict keeps its order (`Dicts.Dict`).
- With integer timestamps, `push` cannot fail in the model. In the source, the sample is appended (engine.py:141) before `_trim_buffer` compares timestamps (engine.py:253). That comparison can raise, for example on mixed naive and aware datetimes, and the handler at engine.py:148 then leaves the sample appended and the buffer untrimmed. This failure after the append is not modelled.
- In `consume_ready`, a failure of `predict` or `from_inference` is an `Err` in the model, and `Emission` turns it into no result with the state unchanged, as the handler at engine.py:196-197 does. Other exceptions inside that `try` are not modelled.
- `EmotionResult.to_dict`, `__str__` and `EmotionConfig.__str__` are formatting only.
- Error message strings are left out. Errors keep only their kind and, for ModelIncompatible, the two counts.
- `get_metadata` is the record `Models.Metadata`. It has no contract of its own beyond copying fields.
- Config's `priors` and `return_all_probas` are carried but unused, because the core never reads them.
- Models.Softmax, Models.PredictionShape and Engine.EmissionFollowsLabelOrder assume distinct labels. A Python dict collapses duplicate labels, and the model's ordered dict does the same through `Put`, but the stated key order needs `Distinct`.
- Models.Create reports ragged weight rows as ValueError. This follows numpy 1.24 and later, where `np.array` on rows of unequal length raises.
- error.py, `__init__.py`, the example scripts, the data generator and the reference-model tools are not part of this model, because they are not part of the inference core.
