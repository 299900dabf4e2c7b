/** The engine's settings, from sdks/python/src/synheart_emotion/config.py, with the
    durations in milliseconds. */
module Config {
  import opened Errors

  datatype EmotionConfig = EmotionConfig(
    modelId: string,
    windowMs: int,
    stepMs: int,
    minRrCount: int,
    returnAllProbas: bool,
    hrBaseline: Option<real>,
    priors: Option<map<string, real>>)

  /** The defaults: a 60 s window, a 5 s step and at least 30 RR intervals. */
  const DefaultConfig: EmotionConfig :=
    EmotionConfig("svm_linear_wrist_sdnn_v1_0", 60000, 5000, 30, true, None, None)
}
