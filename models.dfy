/** The linear SVM classifier of sdks/python/src/synheart_emotion/models.py: a weight
    matrix and bias vector over z-scored features, followed by a max-shifted softmax. */
module Models {
  import opened Errors
  import opened Numerics
  import opened Dicts
  import Features

  /** The fields `__init__` assigns; they are never updated afterwards. Weights are by
      class (rows) and feature (columns); mu and sigma are the scaler's means and stds. */
  datatype LinearSvmModel = LinearSvmModel(
    modelId: string,
    version: string,
    labels: seq<string>,
    featureNames: seq<string>,
    weights: seq<seq<real>>,
    biases: seq<real>,
    mu: map<string, real>,
    sigma: map<string, real>)

  /** `get_metadata`, kept as a record. */
  datatype ModelMetadata = ModelMetadata(
    id: string,
    version: string,
    kind: string,
    labels: seq<string>,
    featureNames: seq<string>,
    numClasses: nat,
    numFeatures: nat)

  function Metadata(m: LinearSvmModel): ModelMetadata {
    ModelMetadata(m.modelId, m.version, "embedded", m.labels, m.featureNames, |m.labels|, |m.featureNames|)
  }

  /** Every row as long as the first: what `np.array` needs to build a matrix. */
  predicate Rectangular(weights: seq<seq<real>>) {
    forall c :: 0 <= c < |weights| ==> |weights[c]| == |weights[0]|
  }

  /** The shape every constructed model has: one weight row and one bias per label,
      and one weight per feature in every row. */
  predicate WellFormed(m: LinearSvmModel) {
    && |m.weights| == |m.labels|
    && |m.biases| == |m.labels|
    && forall c :: 0 <= c < |m.weights| ==> |m.weights[c]| == |m.featureNames|
  }

  // ---------------------------------------------------------------------------
  // Construction

  /** `LinearSvmModel(...)`: the three dimension checks in source order, then the
      matrix conversion, which raises on ragged rows. It succeeds exactly for
      well-formed models. */
  function Create(modelId: string, version: string, labels: seq<string>, featureNames: seq<string>,
                  weights: seq<seq<real>>, biases: seq<real>,
                  mu: map<string, real>, sigma: map<string, real>): (r: Result<LinearSvmModel>)
    ensures r.Ok? <==> WellFormed(LinearSvmModel(modelId, version, labels, featureNames, weights, biases, mu, sigma))
    ensures r.Ok? ==> r.value == LinearSvmModel(modelId, version, labels, featureNames, weights, biases, mu, sigma)
    ensures r.Err? ==> r.error.ModelIncompatible? || r.error == ValueError
  {
    if |weights| != |labels| then Err(ModelIncompatible(|labels|, |weights|))
    else if |biases| != |labels| then Err(ModelIncompatible(|labels|, |biases|))
    else if |weights| > 0 && |weights[0]| != |featureNames| then
      Err(ModelIncompatible(|featureNames|, |weights[0]|))
    else if !Rectangular(weights) then Err(ValueError)
    else Ok(LinearSvmModel(modelId, version, labels, featureNames, weights, biases, mu, sigma))
  }

  /** Each dimension mismatch raises ModelIncompatibleError with the expected and the
      actual count, the first failing check deciding; ragged rows that pass those checks
      make the matrix conversion raise ValueError. */
  lemma CreateRejects(modelId: string, version: string, labels: seq<string>, featureNames: seq<string>,
                      weights: seq<seq<real>>, biases: seq<real>,
                      mu: map<string, real>, sigma: map<string, real>)
    ensures var r := Create(modelId, version, labels, featureNames, weights, biases, mu, sigma);
      && (|weights| != |labels| ==> r == Err(ModelIncompatible(|labels|, |weights|)))
      && (|weights| == |labels| && |biases| != |labels| ==> r == Err(ModelIncompatible(|labels|, |biases|)))
      && (|weights| == |labels| == |biases| && |weights| > 0 && |weights[0]| != |featureNames| ==>
            r == Err(ModelIncompatible(|featureNames|, |weights[0]|)))
      && ((|weights| == |labels| == |biases| && (|weights| == 0 || |weights[0]| == |featureNames|)
           && !Rectangular(weights)) ==> r == Err(ValueError))
  {
  }

  const DefaultLabels: seq<string> := ["Amused", "Calm", "Stressed"]
  const DefaultFeatureNames: seq<string> := ["hr_mean", "sdnn", "rmssd"]

  /** `create_default`: the placeholder WESAD model. */
  function CreateDefault(): (r: Result<LinearSvmModel>)
    ensures r.Ok?
    ensures r.value.labels == DefaultLabels && r.value.featureNames == DefaultFeatureNames
    ensures |r.value.labels| == 3 && |r.value.featureNames| == 3
  {
    Create("wesad_emotion_v1_0", "1.0", DefaultLabels, DefaultFeatureNames,
           [[0.12, 0.5, 0.3], [-0.21, -0.4, -0.3], [0.02, 0.2, 0.1]],
           [-0.2, 0.3, 0.1],
           map["hr_mean" := 72.5, "sdnn" := 45.3, "rmssd" := 32.1],
           map["hr_mean" := 12.0, "sdnn" := 18.7, "rmssd" := 12.4])
  }

  // ---------------------------------------------------------------------------
  // Integrity check

  /** Every weight and every bias is finite. */
  predicate ModelFinite(m: LinearSvmModel, isFinite: real -> bool) {
    && (forall c, f :: 0 <= c < |m.weights| && 0 <= f < |m.weights[c]| ==> isFinite(m.weights[c][f]))
    && (forall c :: 0 <= c < |m.biases| ==> isFinite(m.biases[c]))
  }

  /** `validate`: the dimension checks again (the column check only applies to a
      non-empty matrix), then finiteness. A value whose weights are not a matrix makes
      numpy raise, which the method catches and answers false. */
  function Validate(m: LinearSvmModel, isFinite: real -> bool): (ok: bool)
    ensures ok ==> |m.weights| == |m.labels| && |m.biases| == |m.labels| && Rectangular(m.weights)
    ensures ok ==> ModelFinite(m, isFinite)
    ensures WellFormed(m) ==> (ok <==> ModelFinite(m, isFinite))
  {
    if |m.weights| != |m.labels| then false
    else if |m.biases| != |m.labels| then false
    else if !Rectangular(m.weights) then false
    else if |m.weights| > 0 && |m.weights[0]| > 0 && |m.weights[0]| != |m.featureNames| then false
    else ModelFinite(m, isFinite)
  }

  /** validate() is false whenever a dimension check fails, and on a constructed model
      it holds exactly when every weight and bias is finite. */
  lemma ValidateFacts(m: LinearSvmModel, isFinite: real -> bool)
    ensures |m.weights| != |m.labels| ==> !Validate(m, isFinite)
    ensures |m.biases| != |m.labels| ==> !Validate(m, isFinite)
    ensures |m.weights| > 0 && |m.weights[0]| > 0 && |m.weights[0]| != |m.featureNames| ==> !Validate(m, isFinite)
    ensures WellFormed(m) ==> (Validate(m, isFinite) <==> ModelFinite(m, isFinite))
    ensures Validate(m, isFinite) ==> ModelFinite(m, isFinite)
  {
  }

  // ---------------------------------------------------------------------------
  // Prediction

  /** The feature vector in the model's feature order. */
  function FeatureVector(normalized: map<string, real>, names: seq<string>): (x: seq<real>)
    requires forall i :: 0 <= i < |names| ==> names[i] in normalized
    ensures |x| == |names|
  {
    seq(|names|, i requires 0 <= i < |names| && names[i] in normalized => normalized[names[i]])
  }

  function Dot(w: seq<real>, x: seq<real>): real
    requires |w| == |x|
  {
    if |w| == 0 then 0.0 else w[0] * x[0] + Dot(w[1..], x[1..])
  }

  /** `weights @ x + biases`: one margin per class. */
  function Margins(weights: seq<seq<real>>, biases: seq<real>, x: seq<real>): (margins: seq<real>)
    requires |biases| == |weights|
    requires forall c :: 0 <= c < |weights| ==> |weights[c]| == |x|
    ensures |margins| == |weights|
    ensures forall c :: 0 <= c < |weights| ==> margins[c] == biases[c] + Sum(Products(weights[c], x))
  {
    DotIsSumEveryRow(weights, x);
    seq(|weights|, c requires 0 <= c < |weights| => biases[c] + Dot(weights[c], x))
  }

  /** The products of weights and features, feature by feature. */
  function Products(w: seq<real>, x: seq<real>): (ps: seq<real>)
    requires |w| == |x|
    ensures |ps| == |w|
  {
    seq(|w|, f requires 0 <= f < |w| => w[f] * x[f])
  }

  lemma {:induction false} DotIsSum(w: seq<real>, x: seq<real>)
    requires |w| == |x|
    ensures Dot(w, x) == Sum(Products(w, x))
  {
    if |w| > 0 {
      DotIsSum(w[1..], x[1..]);
      forall f | 0 <= f < |w| - 1
        ensures Products(w, x)[1..][f] == Products(w[1..], x[1..])[f]
      {
      }
      assert Products(w, x)[1..] == Products(w[1..], x[1..]);
    }
  }

  lemma DotIsSumEveryRow(weights: seq<seq<real>>, x: seq<real>)
    requires forall c :: 0 <= c < |weights| ==> |weights[c]| == |x|
    ensures forall c :: 0 <= c < |weights| ==> Dot(weights[c], x) == Sum(Products(weights[c], x))
  {
    forall c | 0 <= c < |weights|
      ensures Dot(weights[c], x) == Sum(Products(weights[c], x))
    {
      DotIsSum(weights[c], x);
    }
  }

  /** The exponentials of the margins shifted by their maximum. */
  function Exponentials(margins: seq<real>, exp: real -> real): (e: seq<real>)
    requires |margins| > 0
    ensures |e| == |margins|
  {
    var maxMargin := MaxOf(margins);
    seq(|margins|, i requires 0 <= i < |margins| => exp(margins[i] - maxMargin))
  }

  /** The softmax of non-empty margins, in class order. */
  function Probabilities(margins: seq<real>, exp: real -> real): (p: seq<real>)
    requires |margins| > 0 && IsExp(exp)
    ensures |p| == |margins|
    ensures forall i :: 0 <= i < |p| ==> 0.0 < p[i] <= 1.0
  {
    var e := Exponentials(margins, exp);
    SharesInUnit(e);
    var sumExp := Sum(e);
    seq(|e|, i requires 0 <= i < |e| => e[i] / sumExp)
  }

  /** `_softmax`: the label-to-probability dict. numpy raises on the maximum of no margins;
      with distinct labels, one per margin, the dict maps exactly the labels, in label
      order, to the probabilities. */
  function Softmax(margins: seq<real>, labels: seq<string>, exp: real -> real): (r: Result<Dict<real>>)
    requires IsExp(exp)
    ensures r.Err? <==> |margins| == 0
    ensures r.Err? ==> r.error == ValueError
    ensures r.Ok? && |labels| == |margins| && Distinct(labels) ==>
      Keys(r.value) == labels && Values(r.value) == Probabilities(margins, exp)
  {
    if |margins| == 0 then Err(ValueError)
    else
      var p := Probabilities(margins, exp);
      FromZipDistinct(labels, p);
      Ok(FromZip(labels, p))
  }

  /** What `predict` returns: BadInput when validation fails, otherwise the softmax of the
      margins of the normalized feature vector. */
  function Prediction(m: LinearSvmModel, features: map<string, real>, ops: FloatOps): Result<Dict<real>>
    requires WellFormed(m) && IsExp(ops.exp)
  {
    if !Features.FeaturesValid(features, m.featureNames, ops.isFinite) then Err(BadInput)
    else
      var normalized := Features.Normalized(features, m.mu, m.sigma);
      var x := FeatureVector(normalized, m.featureNames);
      Softmax(Margins(m.weights, m.biases, x), m.labels, ops.exp)
  }

  /** `predict`: validates, normalizes, and builds the feature vector by looping over the
      model's feature names before computing margins and softmax. The loop's check for a
      name missing after normalization is unreachable, since validation already found every
      name and normalization keeps every key. */
  method Predict(m: LinearSvmModel, features: map<string, real>, ops: FloatOps) returns (r: Result<Dict<real>>)
    requires WellFormed(m) && IsExp(ops.exp)
    ensures r == Prediction(m, features, ops)
  {
    var valid := Features.ValidateFeatures(features, m.featureNames, ops.isFinite);
    if !valid {
      return Err(BadInput);
    }
    var normalizedFeatures := Features.NormalizeFeatures(features, m.mu, m.sigma);
    var featureVector: seq<real> := [];
    for i := 0 to |m.featureNames|
      invariant |featureVector| == i
      invariant forall j :: 0 <= j < i ==>
        m.featureNames[j] in normalizedFeatures && featureVector[j] == normalizedFeatures[m.featureNames[j]]
    {
      var featureName := m.featureNames[i];
      if featureName !in normalizedFeatures {
        assert false;
      }
      featureVector := featureVector + [normalizedFeatures[featureName]];
    }
    assert featureVector == FeatureVector(normalizedFeatures, m.featureNames);
    var margins := Margins(m.weights, m.biases, featureVector);
    r := Softmax(margins, m.labels, ops.exp);
  }

  // ---------------------------------------------------------------------------
  // Properties of the classifier

  /** predict raises BadInputError, and gives no probabilities, whenever validation fails. */
  lemma PredictionRejectsInvalid(m: LinearSvmModel, features: map<string, real>, ops: FloatOps)
    requires WellFormed(m) && IsExp(ops.exp)
    ensures Prediction(m, features, ops).Err? <==>
      (!Features.FeaturesValid(features, m.featureNames, ops.isFinite) || |m.labels| == 0)
    ensures !Features.FeaturesValid(features, m.featureNames, ops.isFinite) ==>
      Prediction(m, features, ops) == Err(BadInput)
  {
  }

  /** Only the model's own features matter, and only through their values: two inputs
      that agree on every feature name give the same prediction, whatever else they hold. */
  lemma PredictionDependsOnlyOnModelFeatures(m: LinearSvmModel, f1: map<string, real>, f2: map<string, real>,
                                             ops: FloatOps)
    requires WellFormed(m) && IsExp(ops.exp)
    requires forall i :: 0 <= i < |m.featureNames| ==>
      (m.featureNames[i] in f1 <==> m.featureNames[i] in f2) &&
      (m.featureNames[i] in f1 ==> f1[m.featureNames[i]] == f2[m.featureNames[i]])
    ensures Prediction(m, f1, ops) == Prediction(m, f2, ops)
  {
    var names := m.featureNames;
    assert Features.FeaturesValid(f1, names, ops.isFinite) <==> Features.FeaturesValid(f2, names, ops.isFinite);
    if Features.FeaturesValid(f1, names, ops.isFinite) {
      var n1 := Features.Normalized(f1, m.mu, m.sigma);
      var n2 := Features.Normalized(f2, m.mu, m.sigma);
      assert FeatureVector(n1, names) == FeatureVector(n2, names);
    }
  }

  /** Every softmax probability lies in (0, 1] and together they sum to 1. */
  lemma SoftmaxSimplex(margins: seq<real>, exp: real -> real)
    requires |margins| > 0 && IsExp(exp)
    ensures var p := Probabilities(margins, exp);
      (forall i :: 0 <= i < |p| ==> 0.0 < p[i] <= 1.0) && Sum(p) == 1.0
  {
    var e := Exponentials(margins, exp);
    SumPositive(e);
    var s := Sum(e);
    SumDivide(e, s);
    assert Probabilities(margins, exp) == seq(|e|, i requires 0 <= i < |e| => e[i] / s);
    DivSelf(s);
  }

  /** Each of several positive numbers is a share of their sum in (0, 1]. */
  lemma SharesInUnit(e: seq<real>)
    requires |e| > 0
    requires forall i :: 0 <= i < |e| ==> e[i] > 0.0
    ensures Sum(e) > 0.0
    ensures forall i :: 0 <= i < |e| ==> 0.0 < e[i] / Sum(e) <= 1.0
  {
    SumPositive(e);
    forall i | 0 <= i < |e|
      ensures 0.0 < e[i] / Sum(e) <= 1.0
    {
      SumDominatesTerm(e, i);
      DivAtMostOne(e[i], Sum(e));
    }
  }

  /** Softmax keeps the order of the margins in both directions; equal margins give equal
      probabilities. */
  lemma SoftmaxOrder(margins: seq<real>, exp: real -> real, i: nat, j: nat)
    requires |margins| > 0 && IsExp(exp)
    requires i < |margins| && j < |margins|
    ensures var p := Probabilities(margins, exp);
      && (p[i] < p[j] <==> margins[i] < margins[j])
      && (margins[i] == margins[j] ==> p[i] == p[j])
  {
    var e := Exponentials(margins, exp);
    SumPositive(e);
    var s := Sum(e);
    var p := Probabilities(margins, exp);
    assert p[i] == e[i] / s && p[j] == e[j] / s;
    if margins[i] < margins[j] {
      DivStrictMonotone(e[i], e[j], s);
    } else if margins[j] < margins[i] {
      DivStrictMonotone(e[j], e[i], s);
    }
  }

  /** The class with the largest margin has the largest probability. */
  lemma SoftmaxArgmax(margins: seq<real>, exp: real -> real, k: nat)
    requires |margins| > 0 && IsExp(exp) && k < |margins|
    requires forall c :: 0 <= c < |margins| ==> margins[c] <= margins[k]
    ensures var p := Probabilities(margins, exp);
      forall c :: 0 <= c < |p| ==> p[c] <= p[k]
  {
    var p := Probabilities(margins, exp);
    forall c | 0 <= c < |p|
      ensures p[c] <= p[k]
    {
      SoftmaxOrder(margins, exp, k, c);
    }
  }

  /** A valid input to a model with distinct labels gives one probability per label, in
      label order: the softmax of the margins W·x + b. */
  lemma PredictionShape(m: LinearSvmModel, features: map<string, real>, ops: FloatOps)
    requires WellFormed(m) && IsExp(ops.exp)
    requires Distinct(m.labels) && |m.labels| > 0
    requires Features.FeaturesValid(features, m.featureNames, ops.isFinite)
    ensures Prediction(m, features, ops).Ok?
    ensures var p := Prediction(m, features, ops).value;
      var x := FeatureVector(Features.Normalized(features, m.mu, m.sigma), m.featureNames);
      && Keys(p) == m.labels
      && Values(p) == Probabilities(Margins(m.weights, m.biases, x), ops.exp)
      && Sum(Values(p)) == 1.0
  {
    var x := FeatureVector(Features.Normalized(features, m.mu, m.sigma), m.featureNames);
    var margins := Margins(m.weights, m.biases, x);
    SoftmaxSimplex(margins, ops.exp);
  }

  lemma {:induction false} DotZero(w: seq<real>, x: seq<real>)
    requires |w| == |x|
    requires forall f :: 0 <= f < |x| ==> x[f] == 0.0
    ensures Dot(w, x) == 0.0
  {
    if |w| > 0 {
      DotZero(w[1..], x[1..]);
    }
  }

  /** For the default model, an input at the scaler's means normalizes to zeros, so the
      margins are the biases and Calm, with the largest bias, is the most probable class. */
  lemma DefaultModelAtMeans(ops: FloatOps)
    requires IsExp(ops.exp)
    requires ops.isFinite(72.5) && ops.isFinite(45.3) && ops.isFinite(32.1)
    ensures var m := CreateDefault().value;
      var r := Prediction(m, m.mu, ops);
      && r.Ok? && Keys(r.value) == DefaultLabels
      && r.value[1].1 > r.value[0].1 && r.value[1].1 > r.value[2].1
  {
    var m := CreateDefault().value;
    var names := m.featureNames;
    assert Features.FeaturesValid(m.mu, names, ops.isFinite);
    var n := Features.Normalized(m.mu, m.mu, m.sigma);
    var x := FeatureVector(n, names);
    assert forall f :: 0 <= f < |x| ==> x[f] == 0.0;
    var margins := Margins(m.weights, m.biases, x);
    forall c | 0 <= c < 3
      ensures margins[c] == m.biases[c]
    {
      DotZero(m.weights[c], x);
    }
    assert Distinct(DefaultLabels);
    SoftmaxOrder(margins, ops.exp, 0, 1);
    SoftmaxOrder(margins, ops.exp, 2, 1);
  }
}
