/**
 * The monitor's configuration. The program reads these from environment variables once at
 * start-up; here they are a value handed to every operation that uses them.
 */
module Settings {

  datatype Config = Config(
    checkPath: string,           // CHECK_PATH: the one path every target is probed at
    timeoutMs: int,              // TIMEOUT_MS: navigation deadline, also shown in the summary
    failThreshold: int,          // FAIL_THRESHOLD: consecutive failures that confirm DOWN
    failKeywords: seq<string>)   // FAIL_KEYWORDS: soft-outage markers, in priority order

  /** Page texts of suspended, unconfigured or password-gated storefronts. */
  const DefaultKeywords: seq<string> := [
    "enter using password",
    "domain not configured",
    "sorry, this shop is currently unavailable",
    "this store is unavailable"
  ]

  /** The values used when the environment sets nothing. */
  const Defaults: Config := Config("/", 30000, 3, DefaultKeywords)
}
