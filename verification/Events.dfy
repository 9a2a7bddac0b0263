/** Usage events of one project and the input shared by the anomaly detectors. */
module Events {
  import opened Text

  /** Timestamps are integer microseconds since the epoch, Python's datetime resolution. */
  const TICKS_PER_SECOND := 1_000_000

  datatype Event = Event(
    id: string,
    ts: int,
    createdAt: int,
    provider: string,
    requestedModel: Option<string>,
    environment: Option<string>,
    totalTokens: int,
    explosionTokens: Option<int>,
    status: Option<string>,
    errorType: Option<string>,
    httpStatus: Option<int>,
    endpoint: Option<string>,
    feature: Option<string>,
    fingerprint: Option<string>)

  datatype DetectorConfig = DetectorConfig(
    retryStormCount: int,
    loopWindowSeconds: int,
    loopCount: int,
    loopMaxGapSeconds: real,
    loopConcurrencyThreshold: int,
    explosionAbs: int,
    growthRatio: real,
    growthCount: int,
    growthMinTokens: int,
    growthConcurrencyThreshold: int)

  datatype DetectionContext = DetectionContext(
    projectId: string,
    provider: string,
    requestedModel: Option<string>,
    environment: Option<string>,
    now: int,
    requests60s: Option<int>,
    tokens60s: Option<int>,
    endpoint: Option<string>,
    feature: Option<string>,
    fingerprint: Option<string>,
    estimatedNextTokens: Option<int>,
    explosionTokens: Option<int>,
    previousTokens: Option<int>,
    currentEvent: Option<Event>,
    recentEvents: seq<Event>,
    config: DetectorConfig)

  function NormalizedModel(model: Option<string>): string {
    Strip(Or(model, ""))
  }

  function Feature(feature: Option<string>): string {
    OrNonEmpty(Strip(Or(feature, "unknown")), "unknown")
  }

  /** An all-blank endpoint strips to the empty string; only a missing one reads "na". */
  function Endpoint(endpoint: Option<string>): string {
    Strip(Or(endpoint, "na"))
  }

  /** Sort keys: oldest first and newest first, by client time and by arrival time. */
  function OldestTs(e: Event): int { e.ts }
  function NewestTs(e: Event): int { -e.ts }
  function NewestCreated(e: Event): int { -e.createdAt }
}
