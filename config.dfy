/** The tuning constants of config.py that the ranking core reads. */
module Config {

  /** Minimum adjusted embedding similarity for a warm-start candidate to reach the judge. */
  const EmbeddingSimilarityThreshold: real := 0.65

  /** Minimum judge score (inclusive) for a candidate to be accepted. */
  const LlmScoreThreshold: int := 65

  /** Floor and size of the daily digest query. */
  const DailyPackMinScore: int := 70
  const DailyPackMaxItems: int := 15

  /** Keywords of the cold-start gate, matched as substrings of the lower-cased article text. */
  const ColdStartKeywords: seq<string> := [
    "vllm", "llm", "inference", "quantization", "kv cache",
    "speculative decoding", "rag", "agents", "fine-tuning",
    "benchmark", "transformer", "embeddings", "serving"
  ]
}
