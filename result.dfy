/** `EmotionResult` and its top-1 selection, from sdks/python/src/synheart_emotion/result.py. */
module Results {
  import opened Errors
  import opened Dicts
  import opened Models

  /** The timestamp is the emission time in milliseconds. */
  datatype EmotionResult = EmotionResult(
    timestamp: int,
    emotion: string,
    confidence: real,
    probabilities: Dict<real>,
    features: map<string, real>,
    model: ModelMetadata)

  /** The position of the pair `max(items, key=value)` picks: the first pair whose value
      no other pair exceeds, since `max` replaces its candidate only on a strictly larger value. */
  function TopIndex(p: Dict<real>): (k: nat)
    requires |p| > 0
    ensures k < |p|
    ensures forall i :: 0 <= i < |p| ==> p[i].1 <= p[k].1
    ensures forall i :: 0 <= i < k ==> p[i].1 < p[k].1
  {
    if |p| == 1 then 0
    else
      var k := TopIndex(p[..|p| - 1]);
      if p[|p| - 1].1 > p[k].1 then |p| - 1 else k
  }

  /** The first maximal position is unique: any position that is maximal and beats every
      earlier one is the one TopIndex finds. */
  lemma TopIndexUnique(p: Dict<real>, i: nat)
    requires i < |p|
    requires forall j :: 0 <= j < |p| ==> p[j].1 <= p[i].1
    requires forall j :: 0 <= j < i ==> p[j].1 < p[i].1
    ensures TopIndex(p) == i
  {
  }

  /** `from_inference`: the top-1 pair becomes emotion and confidence, and everything else
      is stored as given. `max` of an empty dict raises. */
  function FromInference(timestamp: int, probabilities: Dict<real>, features: map<string, real>,
                         model: ModelMetadata): (r: Result<EmotionResult>)
    ensures r.Err? <==> |probabilities| == 0
    ensures r.Err? ==> r.error == ValueError
    ensures r.Ok? ==>
      && r.value.timestamp == timestamp
      && r.value.probabilities == probabilities
      && r.value.features == features
      && r.value.model == model
    ensures r.Ok? ==>
      exists k :: 0 <= k < |probabilities|
        && probabilities[k] == (r.value.emotion, r.value.confidence)
        && (forall i :: 0 <= i < k ==> probabilities[i].1 < r.value.confidence)
        && (forall i :: 0 <= i < |probabilities| ==> probabilities[i].1 <= r.value.confidence)
  {
    if |probabilities| == 0 then Err(ValueError)
    else
      var top := probabilities[TopIndex(probabilities)];
      Ok(EmotionResult(timestamp, top.0, top.1, probabilities, features, model))
  }

  /** The chosen emotion is a key of the dict, its confidence that key's own probability
      and the largest one. */
  lemma FromInferenceChoosesKey(timestamp: int, probabilities: Dict<real>, features: map<string, real>,
                                model: ModelMetadata)
    requires |probabilities| > 0
    ensures var r := FromInference(timestamp, probabilities, features, model);
      && r.Ok?
      && (r.value.emotion, r.value.confidence) in probabilities
      && r.value.emotion in Keys(probabilities)
      && r.value.confidence in Values(probabilities)
      && forall v :: v in Values(probabilities) ==> v <= r.value.confidence
  {
    var k := TopIndex(probabilities);
    assert Keys(probabilities)[k] == probabilities[k].0;
    assert Values(probabilities)[k] == probabilities[k].1;
  }

  /** Ties go to the first key in dict order: when positions i < j share the largest
      probability, position j is never the one chosen, and the first maximal one is. */
  lemma FromInferenceTieBreak(timestamp: int, probabilities: Dict<real>, features: map<string, real>,
                              model: ModelMetadata, i: nat)
    requires i < |probabilities|
    requires forall j :: 0 <= j < |probabilities| ==> probabilities[j].1 <= probabilities[i].1
    requires forall j :: 0 <= j < i ==> probabilities[j].1 < probabilities[i].1
    ensures FromInference(timestamp, probabilities, features, model).Ok?
    ensures FromInference(timestamp, probabilities, features, model).value.emotion == probabilities[i].0
  {
    TopIndexUnique(probabilities, i);
  }

  /** A two-label tie picks the first label. */
  lemma FromInferenceTieExample(timestamp: int, model: ModelMetadata)
    ensures var r := FromInference(timestamp, [("Calm", 0.5), ("Amused", 0.5)], map[], model);
      r.Ok? && r.value.emotion == "Calm" && r.value.confidence == 0.5
  {
  }
}
