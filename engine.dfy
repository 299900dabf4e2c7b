/** The sliding-window inference engine of sdks/python/src/synheart_emotion/engine.py:
    a buffer of samples trimmed to the configured window, and a throttled emission that
    turns the window into features, probabilities and one result. Times are integer
    milliseconds and the wall clock is the parameter `now`. */
module Engine {
  import opened Errors
  import opened Numerics
  import opened Dicts
  import Features
  import opened Models
  import opened Results
  import opened Config

  /** One buffered sample. */
  datatype DataPoint = DataPoint(
    timestamp: int,
    hr: real,
    rrIntervalsMs: seq<real>,
    motion: Option<map<string, real>>)

  /** `get_buffer_stats`: the HR range is (min, max). */
  datatype BufferStats = BufferStats(count: nat, durationMs: int, hrRange: (real, real), rrCount: nat)

  const ExpectedFeatureCount: nat := 3

  /** The checks `push` makes before buffering a sample: HR within [30, 300] bpm, inclusive,
      and at least one RR interval. */
  predicate Accepts(hr: real, rrIntervalsMs: seq<real>) {
    Features.MinValidHr <= hr <= Features.MaxValidHr && |rrIntervalsMs| > 0
  }

  predicate AllAccepted(buffer: seq<DataPoint>) {
    forall i :: 0 <= i < |buffer| ==> Accepts(buffer[i].hr, buffer[i].rrIntervalsMs)
  }

  // ---------------------------------------------------------------------------
  // Trimming

  /** What trimming leaves: samples are dropped from the front while the front one is
      older than the cutoff. */
  function Trimmed(buffer: seq<DataPoint>, cutoff: int): (t: seq<DataPoint>)
    ensures |t| <= |buffer|
  {
    if |buffer| > 0 && buffer[0].timestamp < cutoff then Trimmed(buffer[1..], cutoff) else buffer
  }

  /** Trimming removes the longest stale prefix and nothing else: the result is a suffix,
      every dropped sample is older than the cutoff, and the new front is not. A stale
      sample behind a fresh one therefore stays. */
  lemma {:induction false} TrimmedSuffix(buffer: seq<DataPoint>, cutoff: int)
    ensures var t := Trimmed(buffer, cutoff);
      && t == buffer[|buffer| - |t|..]
      && (forall i :: 0 <= i < |buffer| - |t| ==> buffer[i].timestamp < cutoff)
      && (|t| > 0 ==> t[0].timestamp >= cutoff)
  {
    if |buffer| > 0 && buffer[0].timestamp < cutoff {
      TrimmedSuffix(buffer[1..], cutoff);
      var t := Trimmed(buffer, cutoff);
      forall i | 0 <= i < |buffer| - |t|
        ensures buffer[i].timestamp < cutoff
      {
        if i > 0 {
          assert buffer[i] == buffer[1..][i - 1];
        }
      }
    }
  }

  /** Trimming twice with the same cutoff is trimming once. */
  lemma TrimmedIdempotent(buffer: seq<DataPoint>, cutoff: int)
    ensures Trimmed(Trimmed(buffer, cutoff), cutoff) == Trimmed(buffer, cutoff)
  {
    TrimmedSuffix(buffer, cutoff);
  }

  /** On a buffer in timestamp order every remaining sample is inside the window. */
  lemma TrimmedSorted(buffer: seq<DataPoint>, cutoff: int)
    requires forall i, j :: 0 <= i < j < |buffer| ==> buffer[i].timestamp <= buffer[j].timestamp
    ensures forall i :: 0 <= i < |Trimmed(buffer, cutoff)| ==> Trimmed(buffer, cutoff)[i].timestamp >= cutoff
  {
    TrimmedSuffix(buffer, cutoff);
    var t := Trimmed(buffer, cutoff);
    var d := |buffer| - |t|;
    forall i | 0 <= i < |t|
      ensures t[i].timestamp >= cutoff
    {
      assert t[i] == buffer[d + i] && t[0] == buffer[d];
      if i > 0 {
        assert buffer[d].timestamp <= buffer[d + i].timestamp;
      }
    }
  }

  /** A sample stamped within the window survives the trim that follows its own append,
      and stays last. */
  lemma TrimmedKeepsFreshLast(buffer: seq<DataPoint>, p: DataPoint, cutoff: int)
    requires p.timestamp >= cutoff
    ensures var t := Trimmed(buffer + [p], cutoff);
      |t| > 0 && t[|t| - 1] == p
  {
    var b := buffer + [p];
    TrimmedSuffix(b, cutoff);
    assert b[|b| - 1] == p;
  }

  /** Trimming stops at the first fresh sample: with the cutoff at 50, a sample at 0
      behind a sample at 100 is kept. */
  lemma TrimmedStopsAtFresh()
    ensures var b := [DataPoint(100, 70.0, [800.0], None), DataPoint(0, 70.0, [800.0], None)];
      Trimmed(b, 50) == b
  {
  }

  // ---------------------------------------------------------------------------
  // Window contents

  function HrValues(buffer: seq<DataPoint>): (hs: seq<real>)
    ensures |hs| == |buffer|
    ensures forall i :: 0 <= i < |buffer| ==> hs[i] == buffer[i].hr
  {
    seq(|buffer|, i requires 0 <= i < |buffer| => buffer[i].hr)
  }

  /** All RR intervals of the window, sample after sample. */
  function AllRr(buffer: seq<DataPoint>): seq<real> {
    if |buffer| == 0 then [] else AllRr(buffer[..|buffer| - 1]) + buffer[|buffer| - 1].rrIntervalsMs
  }

  /** The number of RR intervals in the window, sample by sample. */
  function RrCount(buffer: seq<DataPoint>): nat {
    if |buffer| == 0 then 0 else |buffer[0].rrIntervalsMs| + RrCount(buffer[1..])
  }

  lemma {:induction false} RrCountSnoc(buffer: seq<DataPoint>, p: DataPoint)
    ensures RrCount(buffer + [p]) == RrCount(buffer) + |p.rrIntervalsMs|
  {
    if |buffer| > 0 {
      assert (buffer + [p])[1..] == buffer[1..] + [p];
      RrCountSnoc(buffer[1..], p);
    }
  }

  /** The concatenated intervals are exactly as many as the per-sample counts add up to. */
  lemma {:induction false} AllRrLength(buffer: seq<DataPoint>)
    ensures |AllRr(buffer)| == RrCount(buffer)
  {
    if |buffer| > 0 {
      var n := |buffer|;
      AllRrLength(buffer[..n - 1]);
      RrCountSnoc(buffer[..n - 1], buffer[n - 1]);
      assert buffer[..n - 1] + [buffer[n - 1]] == buffer;
    }
  }

  /** Every accepted sample brings at least one interval. */
  lemma {:induction false} RrCountAtLeastCount(buffer: seq<DataPoint>)
    requires AllAccepted(buffer)
    ensures RrCount(buffer) >= |buffer|
  {
    if |buffer| > 0 {
      assert Accepts(buffer[0].hr, buffer[0].rrIntervalsMs);
      RrCountAtLeastCount(buffer[1..]);
    }
  }

  /** One sample's motion added into the aggregate: each of its keys adds its value to
      the running total, starting from 0.0. */
  function AddMotion(aggregate: map<string, real>, motion: map<string, real>): (r: map<string, real>)
    ensures r.Keys == aggregate.Keys + motion.Keys
  {
    map key | key in aggregate.Keys + motion.Keys ::
      if key in motion then (if key in aggregate then aggregate[key] else 0.0) + motion[key]
      else aggregate[key]
  }

  /** Whether a sample counts for motion: `if point.motion:` skips None and an empty dict. */
  predicate HasMotion(p: DataPoint) {
    p.motion.Some? && |p.motion.value| > 0
  }

  /** The motion aggregate of the window. */
  function MotionAggregate(buffer: seq<DataPoint>): map<string, real> {
    if |buffer| == 0 then map[]
    else
      var aggregate := MotionAggregate(buffer[..|buffer| - 1]);
      var point := buffer[|buffer| - 1];
      if HasMotion(point) then AddMotion(aggregate, point.motion.value) else aggregate
  }

  /** The total of one motion key over the window: the independent reference for the aggregate. */
  function MotionTotal(buffer: seq<DataPoint>, key: string): real {
    if |buffer| == 0 then 0.0
    else
      var point := buffer[|buffer| - 1];
      MotionTotal(buffer[..|buffer| - 1], key) +
        (if HasMotion(point) && key in point.motion.value then point.motion.value[key] else 0.0)
  }

  /** The aggregate holds exactly the keys some sample reports, each with the sum of its
      values over the window. */
  lemma {:induction false} MotionAggregateIsTotal(buffer: seq<DataPoint>, key: string)
    ensures key in MotionAggregate(buffer) <==>
      exists i :: 0 <= i < |buffer| && HasMotion(buffer[i]) && key in buffer[i].motion.value
    ensures key in MotionAggregate(buffer) ==> MotionAggregate(buffer)[key] == MotionTotal(buffer, key)
    ensures key !in MotionAggregate(buffer) ==> MotionTotal(buffer, key) == 0.0
  {
    var n := |buffer|;
    if n > 0 {
      var prefix := buffer[..n - 1];
      MotionAggregateIsTotal(prefix, key);
      forall i | 0 <= i < n - 1
        ensures prefix[i] == buffer[i]
      {
      }
      if key in MotionAggregate(buffer) && !(HasMotion(buffer[n - 1]) && key in buffer[n - 1].motion.value) {
        var i :| 0 <= i < n - 1 && HasMotion(prefix[i]) && key in prefix[i].motion.value;
        assert buffer[i] == prefix[i];
      }
    }
  }

  /** `_extract_window_features`: None for an empty window or too few RR intervals;
      otherwise the features of all HR values, all RR intervals and the motion aggregate,
      with the baseline, when configured, taken off hr_mean. */
  function WindowFeatures(buffer: seq<DataPoint>, config: EmotionConfig, sqrt: real -> real): Option<map<string, real>> {
    if |buffer| == 0 then None
    else
      var allRr := AllRr(buffer);
      if |allRr| < config.minRrCount then None
      else
        var aggregate := MotionAggregate(buffer);
        var features := Features.ExtractFeatures(HrValues(buffer), allRr,
                                                 if |aggregate| > 0 then Some(aggregate) else None, sqrt);
        Some(WithBaseline(features, config.hrBaseline))
  }

  /** The personalization step: a configured baseline is taken off hr_mean. */
  function WithBaseline(features: map<string, real>, hrBaseline: Option<real>): map<string, real>
    requires "hr_mean" in features
  {
    if hrBaseline.Some? then features["hr_mean" := features["hr_mean"] - hrBaseline.value] else features
  }

  /** The window yields features exactly when it is non-empty with enough RR intervals. */
  lemma WindowFeaturesPresent(buffer: seq<DataPoint>, config: EmotionConfig, sqrt: real -> real)
    ensures WindowFeatures(buffer, config, sqrt).Some? <==> |buffer| > 0 && RrCount(buffer) >= config.minRrCount
  {
    AllRrLength(buffer);
  }

  /** The window's features are keyed by hr_mean, sdnn, rmssd and the aggregated motion
      keys. A motion key holds the window's total for it (less the baseline for hr_mean);
      unless a motion key replaces them, hr_mean is the window's mean HR less the
      baseline, and sdnn and rmssd are those of all the window's intervals. */
  lemma WindowFeaturesValues(buffer: seq<DataPoint>, config: EmotionConfig, sqrt: real -> real)
    requires WindowFeatures(buffer, config, sqrt).Some?
    ensures var f := WindowFeatures(buffer, config, sqrt).value;
      && "hr_mean" in f && "sdnn" in f && "rmssd" in f
      && ("hr_mean" !in MotionAggregate(buffer) ==>
            f["hr_mean"] == Features.HrMean(HrValues(buffer)) -
                            (if config.hrBaseline.Some? then config.hrBaseline.value else 0.0))
      && ("sdnn" !in MotionAggregate(buffer) ==> f["sdnn"] == Features.Sdnn(AllRr(buffer), sqrt))
      && ("rmssd" !in MotionAggregate(buffer) ==> f["rmssd"] == Features.Rmssd(AllRr(buffer), sqrt))
    ensures var f := WindowFeatures(buffer, config, sqrt).value;
      f.Keys == {"hr_mean", "sdnn", "rmssd"} + MotionAggregate(buffer).Keys
    ensures var f := WindowFeatures(buffer, config, sqrt).value;
      forall k :: k in MotionAggregate(buffer) && k != "hr_mean" ==> f[k] == MotionAggregate(buffer)[k]
    ensures var f := WindowFeatures(buffer, config, sqrt).value;
      "hr_mean" in MotionAggregate(buffer) ==>
        f["hr_mean"] == MotionAggregate(buffer)["hr_mean"] -
                        (if config.hrBaseline.Some? then config.hrBaseline.value else 0.0)
  {
    var aggregate := MotionAggregate(buffer);
    var motion := if |aggregate| > 0 then Some(aggregate) else None;
    var extracted := Features.ExtractFeatures(HrValues(buffer), AllRr(buffer), motion, sqrt);
    assert WindowFeatures(buffer, config, sqrt).value == WithBaseline(extracted, config.hrBaseline);
    Features.ExtractFeaturesValues(HrValues(buffer), AllRr(buffer), motion, sqrt);
    assert Features.MotionKeys(motion) == aggregate.Keys;
    WithBaselineValues(extracted, config.hrBaseline);
  }

  /** The baseline changes hr_mean only. */
  lemma WithBaselineValues(features: map<string, real>, hrBaseline: Option<real>)
    requires "hr_mean" in features
    ensures var f := WithBaseline(features, hrBaseline);
      && f.Keys == features.Keys
      && (forall k :: k in features && k != "hr_mean" ==> f[k] == features[k])
      && f["hr_mean"] == features["hr_mean"] - (if hrBaseline.Some? then hrBaseline.value else 0.0)
  {
  }

  // ---------------------------------------------------------------------------
  // Emission

  /** What `consume_ready` emits at time `now`: nothing while throttled, with fewer than
      two samples, without window features, or when predict or the result construction
      raises (the exception is caught); otherwise one result stamped `now`. */
  function Emission(buffer: seq<DataPoint>, lastEmission: Option<int>, now: int, config: EmotionConfig,
                    model: LinearSvmModel, ops: FloatOps): Option<EmotionResult>
    requires WellFormed(model) && IsExp(ops.exp)
  {
    if lastEmission.Some? && now - lastEmission.value < config.stepMs then None
    else if |buffer| < 2 then None
    else
      match WindowFeatures(buffer, config, ops.sqrt)
      case None => None
      case Some(features) =>
        match Prediction(model, features, ops)
        case Err(_) => None
        case Ok(probabilities) =>
          match FromInference(now, probabilities, features, Metadata(model))
          case Err(_) => None
          case Ok(result) => Some(result)
  }

  /** The three reasons for emitting nothing. */
  lemma EmissionNotReady(buffer: seq<DataPoint>, lastEmission: Option<int>, now: int, config: EmotionConfig,
                         model: LinearSvmModel, ops: FloatOps)
    requires WellFormed(model) && IsExp(ops.exp)
    ensures lastEmission.Some? && now - lastEmission.value < config.stepMs ==>
      Emission(buffer, lastEmission, now, config, model, ops).None?
    ensures |buffer| < 2 ==> Emission(buffer, lastEmission, now, config, model, ops).None?
    ensures RrCount(buffer) < config.minRrCount ==> Emission(buffer, lastEmission, now, config, model, ops).None?
  {
    AllRrLength(buffer);
  }

  /** An emitted result is stamped `now`, carries the window features, the model's
      metadata and the prediction's probabilities, and names the first most probable label. */
  lemma EmissionShape(buffer: seq<DataPoint>, lastEmission: Option<int>, now: int, config: EmotionConfig,
                      model: LinearSvmModel, ops: FloatOps)
    requires WellFormed(model) && IsExp(ops.exp)
    requires Emission(buffer, lastEmission, now, config, model, ops).Some?
    ensures var r := Emission(buffer, lastEmission, now, config, model, ops).value;
      && WindowFeatures(buffer, config, ops.sqrt) == Some(r.features)
      && Prediction(model, r.features, ops) == Ok(r.probabilities)
      && r.timestamp == now && r.model == Metadata(model)
      && r.emotion in Keys(r.probabilities)
      && forall i :: 0 <= i < |r.probabilities| ==> r.probabilities[i].1 <= r.confidence
  {
    var r := Emission(buffer, lastEmission, now, config, model, ops).value;
    var features := WindowFeatures(buffer, config, ops.sqrt).value;
    var probabilities := Prediction(model, features, ops).value;
    FromInferenceChoosesKey(now, probabilities, features, Metadata(model));
    assert forall v :: v in Values(r.probabilities) ==> v <= r.confidence;
    forall i | 0 <= i < |r.probabilities|
      ensures r.probabilities[i].1 <= r.confidence
    {
      assert Values(r.probabilities)[i] == r.probabilities[i].1;
    }
  }

  /** With distinct labels an emitted result carries one probability per label, in label
      order, summing to 1; the emotion is the label at a position `k` whose probability no
      other label exceeds and every earlier label's falls short of, and its confidence
      lies in (0, 1]. */
  lemma EmissionFollowsLabelOrder(buffer: seq<DataPoint>, lastEmission: Option<int>, now: int,
                                  config: EmotionConfig, model: LinearSvmModel, ops: FloatOps, r: EmotionResult)
    returns (k: nat)
    requires WellFormed(model) && IsExp(ops.exp) && Distinct(model.labels)
    requires Emission(buffer, lastEmission, now, config, model, ops) == Some(r)
    ensures Keys(r.probabilities) == model.labels
    ensures Sum(Values(r.probabilities)) == 1.0
    ensures 0.0 < r.confidence <= 1.0
    ensures k < |model.labels| && r.emotion == model.labels[k]
    ensures r.confidence == Values(r.probabilities)[k]
    ensures forall j :: 0 <= j < k ==> Values(r.probabilities)[j] < r.confidence
    ensures forall j :: 0 <= j < |model.labels| ==> Values(r.probabilities)[j] <= r.confidence
  {
    var features, p := r.features, r.probabilities;
    assert FromInference(now, p, features, Metadata(model)) == Ok(r)
        && Features.FeaturesValid(features, model.featureNames, ops.isFinite) by {
      EmissionFromInference(buffer, lastEmission, now, config, model, ops);
      PredictionRejectsInvalid(model, features, ops);
    }
    var probs := Values(p);
    assert Keys(p) == model.labels && Sum(probs) == 1.0
        && forall i :: 0 <= i < |probs| ==> 0.0 < probs[i] <= 1.0 by {
      EmissionFromInference(buffer, lastEmission, now, config, model, ops);
      PredictionShape(model, features, ops);
      var x := FeatureVector(Features.Normalized(features, model.mu, model.sigma), model.featureNames);
      assert probs == Probabilities(Margins(model.weights, model.biases, x), ops.exp);
    }
    k := TopInLabelOrder(now, p, features, Metadata(model), r, model.labels);
  }

  /** The selection of `from_inference` over a dict whose keys are `labels` and whose
      values lie in (0, 1]. */
  lemma TopInLabelOrder(now: int, p: Dict<real>, features: map<string, real>, meta: ModelMetadata,
                        r: EmotionResult, labels: seq<string>) returns (k: nat)
    requires FromInference(now, p, features, meta) == Ok(r)
    requires Keys(p) == labels
    requires forall i :: 0 <= i < |Values(p)| ==> 0.0 < Values(p)[i] <= 1.0
    ensures 0.0 < r.confidence <= 1.0
    ensures k < |labels| && r.emotion == labels[k] && r.confidence == Values(p)[k]
    ensures forall j :: 0 <= j < k ==> Values(p)[j] < r.confidence
    ensures forall j :: 0 <= j < |labels| ==> Values(p)[j] <= r.confidence
  {
    k := TopIndex(p);
    assert r.emotion == p[k].0 && r.confidence == p[k].1;
    assert Keys(p)[k] == p[k].0;
    assert forall j :: 0 <= j < |p| ==> Values(p)[j] == p[j].1;
  }

  /** An emitted result is what `from_inference` makes of the window's prediction. */
  lemma EmissionFromInference(buffer: seq<DataPoint>, lastEmission: Option<int>, now: int,
                              config: EmotionConfig, model: LinearSvmModel, ops: FloatOps)
    requires WellFormed(model) && IsExp(ops.exp)
    requires Emission(buffer, lastEmission, now, config, model, ops).Some?
    ensures var r := Emission(buffer, lastEmission, now, config, model, ops).value;
      && WindowFeatures(buffer, config, ops.sqrt) == Some(r.features)
      && Prediction(model, r.features, ops) == Ok(r.probabilities)
      && FromInference(now, r.probabilities, r.features, Metadata(model)) == Ok(r)
  {
  }

  /** Once the throttle is open, the window holds two samples and enough intervals, and
      the window's features pass validation, a model with labels always emits. */
  lemma EmissionReady(buffer: seq<DataPoint>, lastEmission: Option<int>, now: int, config: EmotionConfig,
                      model: LinearSvmModel, ops: FloatOps)
    requires WellFormed(model) && IsExp(ops.exp) && |model.labels| > 0
    requires lastEmission.None? || now - lastEmission.value >= config.stepMs
    requires |buffer| >= 2
    requires WindowFeatures(buffer, config, ops.sqrt).Some?
    requires Features.FeaturesValid(WindowFeatures(buffer, config, ops.sqrt).value, model.featureNames, ops.isFinite)
    ensures Emission(buffer, lastEmission, now, config, model, ops).Some?
  {
    var features := WindowFeatures(buffer, config, ops.sqrt).value;
    PredictionRejectsInvalid(model, features, ops);
  }

  // ---------------------------------------------------------------------------
  // Model compatibility

  /** The check of `from_pretrained`: three feature names, among them hr_mean, sdnn and rmssd. */
  predicate HasRequiredFeatures(names: seq<string>) {
    |names| == ExpectedFeatureCount && "hr_mean" in names && "sdnn" in names && "rmssd" in names
  }

  /** The check accepts exactly the orderings of the three HRV feature names. */
  lemma HasRequiredFeaturesIff(names: seq<string>)
    ensures HasRequiredFeatures(names) <==> multiset(names) == multiset(DefaultFeatureNames)
  {
    if HasRequiredFeatures(names) {
      RequiredFeaturesArePermutation(names);
    }
    if multiset(names) == multiset(DefaultFeatureNames) {
      var required := DefaultFeatureNames;
      assert |names| == |multiset(names)| == |multiset(required)| == 3;
      assert required[0] in multiset(required) && required[1] in multiset(required) && required[2] in multiset(required);
    }
  }

  lemma RequiredFeaturesArePermutation(names: seq<string>)
    requires HasRequiredFeatures(names)
    ensures multiset(names) == multiset(DefaultFeatureNames)
  {
    ThreeDistinct(names, "hr_mean", "sdnn", "rmssd");
    assert DefaultFeatureNames == ["hr_mean", "sdnn", "rmssd"];
  }

  /** Three distinct members of a three-element sequence are all of it. */
  lemma ThreeDistinct<T>(s: seq<T>, x: T, y: T, z: T)
    requires |s| == 3 && x in s && y in s && z in s
    requires x != y && y != z && x != z
    ensures multiset(s) == multiset{x, y, z}
  {
    var a :| 0 <= a < 3 && s[a] == x;
    var b :| 0 <= b < 3 && s[b] == y;
    var c :| 0 <= c < 3 && s[c] == z;
    ThreeIndices(s, a, b, c);
  }

  lemma ThreeIndices<T>(s: seq<T>, a: nat, b: nat, c: nat)
    requires |s| == 3 && a < 3 && b < 3 && c < 3
    requires a != b && b != c && a != c
    ensures multiset(s) == multiset{s[a], s[b], s[c]}
  {
    assert s == [s[0], s[1], s[2]];
    assert multiset(s) == multiset{s[0], s[1], s[2]};
  }

  /** Every window's features cover the feature names of a compatible model. */
  lemma CompatibleModelFeaturesPresent(buffer: seq<DataPoint>, config: EmotionConfig, sqrt: real -> real,
                                       names: seq<string>)
    requires HasRequiredFeatures(names)
    requires WindowFeatures(buffer, config, sqrt).Some?
    ensures forall i :: 0 <= i < |names| ==> names[i] in WindowFeatures(buffer, config, sqrt).value
  {
    var f := WindowFeatures(buffer, config, sqrt).value;
    assert "hr_mean" in f && "sdnn" in f && "rmssd" in f by {
      WindowFeaturesValues(buffer, config, sqrt);
    }
    ThreeDistinct(names, "hr_mean", "sdnn", "rmssd");
    forall i | 0 <= i < |names|
      ensures names[i] in f
    {
      assert names[i] in multiset(names);
    }
  }

  // ---------------------------------------------------------------------------
  // The engine

  class EmotionEngine {
    const config: EmotionConfig
    const model: LinearSvmModel
    const ops: FloatOps
    var buffer: seq<DataPoint>
    var lastEmission: Option<int>

    /** The model is a constructed one, exp is what the classifier assumes, and every
        buffered sample passed the checks of `push`. */
    ghost predicate Valid()
      reads this
    {
      && WellFormed(model)
      && IsExp(ops.exp)
      && AllAccepted(buffer)
    }

    /** `EmotionEngine(config, model)`: an empty buffer and no emission yet. */
    constructor(config: EmotionConfig, model: LinearSvmModel, ops: FloatOps)
      requires WellFormed(model) && IsExp(ops.exp)
      ensures Valid()
      ensures this.config == config && this.model == model && this.ops == ops
      ensures buffer == [] && lastEmission == None
    {
      this.config := config;
      this.model := model;
      this.ops := ops;
      buffer := [];
      lastEmission := None;
    }

    /** `from_pretrained`: the given model or the default one, rejected with
        ModelIncompatibleError(3, its feature count) unless it has the three HRV features. */
    static method FromPretrained(config: EmotionConfig, model: Option<LinearSvmModel>, ops: FloatOps)
      returns (r: Result<EmotionEngine>)
      requires model.Some? ==> WellFormed(model.value)
      requires IsExp(ops.exp)
      ensures var chosen := if model.Some? then model.value else CreateDefault().value;
        && (r.Ok? <==> HasRequiredFeatures(chosen.featureNames))
        && (r.Err? ==> r.error == ModelIncompatible(ExpectedFeatureCount, |chosen.featureNames|))
        && (r.Ok? ==> fresh(r.value) && r.value.Valid() && r.value.config == config
                      && r.value.model == chosen && r.value.buffer == [] && r.value.lastEmission == None)
    {
      var svmModel := if model.Some? then model.value else CreateDefault().value;
      if !HasRequiredFeatures(svmModel.featureNames) {
        return Err(ModelIncompatible(ExpectedFeatureCount, |svmModel.featureNames|));
      }
      var engine := new EmotionEngine(config, svmModel, ops);
      return Ok(engine);
    }

    /** `push`: a sample failing the HR or RR check is ignored; an accepted one is
        appended and the buffer trimmed against the window ending at `now`. */
    method Push(hr: real, rrIntervalsMs: seq<real>, timestamp: int, motion: Option<map<string, real>>, now: int)
      requires Valid()
      modifies this
      ensures Valid()
      ensures lastEmission == old(lastEmission)
      ensures !Accepts(hr, rrIntervalsMs) ==> buffer == old(buffer)
      ensures Accepts(hr, rrIntervalsMs) ==>
        buffer == Trimmed(old(buffer) + [DataPoint(timestamp, hr, rrIntervalsMs, motion)], now - config.windowMs)
    {
      if hr < Features.MinValidHr || hr > Features.MaxValidHr {
        return;
      }
      if |rrIntervalsMs| == 0 {
        return;
      }
      var dataPoint := DataPoint(timestamp, hr, rrIntervalsMs, motion);
      buffer := buffer + [dataPoint];
      TrimBuffer(now);
    }

    /** `_trim_buffer`: pops the front while it is older than `now` minus the window. */
    method TrimBuffer(now: int)
      requires Valid()
      modifies this
      ensures Valid()
      ensures buffer == Trimmed(old(buffer), now - config.windowMs)
      ensures lastEmission == old(lastEmission)
    {
      if |buffer| == 0 {
        return;
      }
      var cutoffTime := now - config.windowMs;
      while |buffer| > 0 && buffer[0].timestamp < cutoffTime
        invariant AllAccepted(buffer)
        invariant Trimmed(buffer, cutoffTime) == Trimmed(old(buffer), cutoffTime)
        invariant lastEmission == old(lastEmission)
        decreases |buffer|
      {
        assert Trimmed(buffer[1..], cutoffTime) == Trimmed(buffer, cutoffTime);
        buffer := buffer[1..];
      }
    }

    /** One sample's motion, key by key: `aggregate[key] = aggregate.get(key, 0.0) + value`. */
    static method AccumulateMotion(aggregate: map<string, real>, motion: map<string, real>)
      returns (r: map<string, real>)
      ensures r == AddMotion(aggregate, motion)
    {
      r := aggregate;
      var remaining := motion.Keys;
      while remaining != {}
        invariant remaining <= motion.Keys
        invariant r.Keys == aggregate.Keys + (motion.Keys - remaining)
        invariant forall key :: key in r ==>
          r[key] == if key in motion && key !in remaining
                    then (if key in aggregate then aggregate[key] else 0.0) + motion[key]
                    else aggregate[key]
        decreases remaining
      {
        var key :| key in remaining;
        var value := motion[key];
        r := r[key := (if key in r then r[key] else 0.0) + value];
        remaining := remaining - {key};
      }
    }

    /** `_extract_window_features`: one pass over the buffer collecting HR values, RR
        intervals and the motion aggregate. */
    method ExtractWindowFeatures() returns (features: Option<map<string, real>>)
      ensures features == WindowFeatures(buffer, config, ops.sqrt)
    {
      var points := buffer;
      if |points| == 0 {
        return None;
      }
      var hrValues, allRrIntervals, motionAggregate := CollectWindow(points);
      if |allRrIntervals| < config.minRrCount {
        return None;
      }
      var motion := if |motionAggregate| > 0 then Some(motionAggregate) else None;
      var f := Features.ExtractFeatures(hrValues, allRrIntervals, motion, ops.sqrt);
      ghost var extracted := f;
      if config.hrBaseline.Some? {
        f := f["hr_mean" := f["hr_mean"] - config.hrBaseline.value];
      }
      assert f == WithBaseline(extracted, config.hrBaseline);
      return Some(f);
    }

    /** The loop of `_extract_window_features`. */
    static method CollectWindow(points: seq<DataPoint>)
      returns (hrValues: seq<real>, allRrIntervals: seq<real>, motionAggregate: map<string, real>)
      ensures hrValues == HrValues(points)
      ensures allRrIntervals == AllRr(points)
      ensures motionAggregate == MotionAggregate(points)
    {
      hrValues, allRrIntervals, motionAggregate := [], [], map[];
      for i := 0 to |points|
        invariant hrValues == HrValues(points[..i])
        invariant allRrIntervals == AllRr(points[..i])
        invariant motionAggregate == MotionAggregate(points[..i])
      {
        var point := points[i];
        WindowSnoc(points, i);
        hrValues := hrValues + [point.hr];
        allRrIntervals := allRrIntervals + point.rrIntervalsMs;
        if HasMotion(point) {
          motionAggregate := AccumulateMotion(motionAggregate, point.motion.value);
        }
      }
      assert points[..|points|] == points;
    }

    /** What one more sample adds to the window's collections. */
    static lemma WindowSnoc(points: seq<DataPoint>, i: nat)
      requires i < |points|
      ensures HrValues(points[..i + 1]) == HrValues(points[..i]) + [points[i].hr]
      ensures AllRr(points[..i + 1]) == AllRr(points[..i]) + points[i].rrIntervalsMs
      ensures MotionAggregate(points[..i + 1]) ==
        if HasMotion(points[i]) then AddMotion(MotionAggregate(points[..i]), points[i].motion.value)
        else MotionAggregate(points[..i])
    {
      var seen := points[..i + 1];
      assert seen[..i] == points[..i] && seen[i] == points[i];
    }

    /** `consume_ready`: at most one result, the buffer untouched, and the emission time
        moved to `now` exactly when a result is returned. */
    method ConsumeReady(now: int) returns (results: seq<EmotionResult>)
      requires Valid()
      modifies this
      ensures Valid()
      ensures buffer == old(buffer)
      ensures |results| <= 1
      ensures |results| == 1 <==> Emission(buffer, old(lastEmission), now, config, model, ops).Some?
      ensures |results| == 1 ==> results[0] == Emission(buffer, old(lastEmission), now, config, model, ops).value
      ensures lastEmission == if |results| == 1 then Some(now) else old(lastEmission)
    {
      results := [];
      if lastEmission.Some? {
        var elapsed := now - lastEmission.value;
        if elapsed < config.stepMs {
          return;
        }
      }
      if |buffer| < 2 {
        return;
      }
      var features := ExtractWindowFeatures();
      if features.None? {
        return;
      }
      var probabilities := Predict(model, features.value, ops);
      if probabilities.Err? {
        return;
      }
      var result := FromInference(now, probabilities.value, features.value, Metadata(model));
      if result.Err? {
        return;
      }
      assert Emission(buffer, lastEmission, now, config, model, ops) == Some(result.value);
      results := [result.value];
      lastEmission := Some(now);
    }

    /** `get_buffer_stats`: a snapshot of the buffer, zeros when it is empty. */
    function GetBufferStats(): (s: BufferStats)
      reads this
      ensures s.count == |buffer|
      ensures s.rrCount == |AllRr(buffer)|
      ensures |buffer| == 0 ==> s == BufferStats(0, 0, (0.0, 0.0), 0)
      ensures |buffer| > 0 ==>
        && s.durationMs == buffer[|buffer| - 1].timestamp - buffer[0].timestamp
        && s.hrRange.0 in HrValues(buffer) && s.hrRange.1 in HrValues(buffer)
        && forall i :: 0 <= i < |buffer| ==> s.hrRange.0 <= buffer[i].hr <= s.hrRange.1
    {
      AllRrLength(buffer);
      if |buffer| == 0 then BufferStats(0, 0, (0.0, 0.0), 0)
      else
        var hrValues := HrValues(buffer);
        BufferStats(|buffer|, buffer[|buffer| - 1].timestamp - buffer[0].timestamp,
                    (MinOf(hrValues), MaxOf(hrValues)), RrCount(buffer))
    }

    /** Every buffered HR passed the range check, so the reported range lies in [30, 300],
        and there are at least as many intervals as samples. */
    lemma BufferStatsInRange()
      requires Valid()
      ensures var s := GetBufferStats();
        && (|buffer| > 0 ==> Features.MinValidHr <= s.hrRange.0 <= s.hrRange.1 <= Features.MaxValidHr)
        && s.rrCount >= s.count
    {
      AllRrLength(buffer);
      RrCountAtLeastCount(buffer);
      if |buffer| > 0 {
        var s := GetBufferStats();
        var hrValues := HrValues(buffer);
        var lo :| 0 <= lo < |buffer| && hrValues[lo] == s.hrRange.0;
        var hi :| 0 <= hi < |buffer| && hrValues[hi] == s.hrRange.1;
        assert Accepts(buffer[lo].hr, buffer[lo].rrIntervalsMs);
        assert Accepts(buffer[hi].hr, buffer[hi].rrIntervalsMs);
        assert s.hrRange.0 <= buffer[0].hr <= s.hrRange.1;
      }
    }

    /** `clear`: empties the buffer and forgets the last emission. */
    method Clear()
      requires Valid()
      modifies this
      ensures Valid()
      ensures buffer == [] && lastEmission == None
    {
      buffer := [];
      lastEmission := None;
    }
  }

  /** The engine's test cases (sdks/python/tests/test_engine.py): a default engine starts
      empty, keeps one accepted sample, emits nothing from one sample, ignores an HR of 400
      and an empty RR list, and is empty after clear, however often it is called. */
  method EngineScenario(ops: FloatOps) returns (stats: seq<BufferStats>, results: seq<EmotionResult>)
    requires IsExp(ops.exp)
    ensures stats == [BufferStats(0, 0, (0.0, 0.0), 0), BufferStats(1, 0, (72.0, 72.0), 3),
                      BufferStats(1, 0, (72.0, 72.0), 3), BufferStats(0, 0, (0.0, 0.0), 0),
                      BufferStats(0, 0, (0.0, 0.0), 0)]
    ensures results == []
  {
    assert HasRequiredFeatures(DefaultFeatureNames) by {
      assert DefaultFeatureNames[0] == "hr_mean" && DefaultFeatureNames[1] == "sdnn" && DefaultFeatureNames[2] == "rmssd";
    }
    var created := EmotionEngine.FromPretrained(DefaultConfig, None, ops);
    var engine := created.value;
    var empty := engine.GetBufferStats();
    EmissionNotReady(engine.buffer, engine.lastEmission, 1000, engine.config, engine.model, engine.ops);
    var none := engine.ConsumeReady(1000);
    engine.Push(72.0, [850.0, 820.0, 830.0], 1000, None, 1000);
    var one := engine.GetBufferStats();
    EmissionNotReady(engine.buffer, engine.lastEmission, 1000, engine.config, engine.model, engine.ops);
    var oneSample := engine.ConsumeReady(1000);
    results := none + oneSample;
    engine.Push(400.0, [850.0, 820.0, 830.0], 2000, None, 2000);
    engine.Push(72.0, [], 2000, None, 2000);
    var afterRejected := engine.GetBufferStats();
    engine.Clear();
    var cleared := engine.GetBufferStats();
    engine.Clear();
    var clearedTwice := engine.GetBufferStats();
    stats := [empty, one, afterRejected, cleared, clearedTwice];
  }
}
