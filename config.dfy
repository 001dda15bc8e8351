/** The constants of config.py that the core uses. The environment-loaded
    settings (the API key, the timeout, the concurrency limit) are passed
    to the operations as parameters instead. */
module Config {

  /** MAX_RETRIES: attempts per question. */
  const MaxRetries: nat := 3

  /** RETRY_DELAY: seconds; the n-th retry waits RETRY_DELAY * n. */
  const RetryDelay: nat := 2

  /** SUPPORTED_FORMATS: the lower-case suffixes accepted as images. */
  const SupportedFormats: set<string> := {".jpg", ".jpeg", ".png", ".gif", ".webp"}
}
