/** The immutable `Settings` the core reads, the bounds every settings object satisfies
    once built, the defaults, and the two derived properties the core uses. */
module Config {

  datatype Settings = Settings(
    geminiModelText: string,
    geminiModelVision: string,
    rateLimitPerMinute: int,
    rateLimitPerHour: int,
    rateLimitEnabled: bool,
    maxFileSizeMb: int,
    allowedImageTypes: seq<string>,
    allowedAudioTypes: seq<string>,
    allowedVideoTypes: seq<string>,
    enableCache: bool,
    cacheTtlSeconds: int,
    cacheMaxSize: int,
    corsOrigins: seq<string>)
  {
    /** The field bounds a settings object is checked against when it is built:
        all rates, the cache TTL and the cache size positive, the file size in (0, 100] MB. */
    predicate Valid() {
      && rateLimitPerMinute > 0
      && rateLimitPerHour > 0
      && 0 < maxFileSizeMb <= 100
      && cacheTtlSeconds > 0
      && cacheMaxSize > 0
    }
  }

  /** The settings used when the environment sets nothing but the API key. */
  const Defaults := Settings(
    geminiModelText := "gemini-2.0-flash-exp",
    geminiModelVision := "gemini-2.0-flash-exp",
    rateLimitPerMinute := 60,
    rateLimitPerHour := 1000,
    rateLimitEnabled := true,
    maxFileSizeMb := 10,
    allowedImageTypes := ["image/jpeg", "image/png", "image/gif", "image/webp"],
    allowedAudioTypes := ["audio/wav", "audio/mpeg", "audio/mp3"],
    allowedVideoTypes := ["video/mp4", "video/webm", "video/quicktime"],
    enableCache := true,
    cacheTtlSeconds := 3600,
    cacheMaxSize := 1000,
    corsOrigins := ["http://localhost:3000", "http://localhost:5173", "*"])

  const BytesPerMb: int := 1024 * 1024

  /** The defaults satisfy the settings bounds. */
  lemma DefaultsValid()
    ensures Defaults.Valid()
    ensures Defaults.rateLimitPerMinute == 60 && Defaults.cacheTtlSeconds == 3600
    ensures Defaults.cacheMaxSize == 1000 && Defaults.enableCache && Defaults.rateLimitEnabled
  {
  }

  /** `max_file_size_bytes`: whole mebibytes, recoverable exactly from the byte count. */
  function MaxFileSizeBytes(s: Settings): (b: int)
    ensures b % BytesPerMb == 0 && b / BytesPerMb == s.maxFileSizeMb
    ensures s.Valid() ==> 0 < b <= 100 * BytesPerMb
  {
    s.maxFileSizeMb * 1024 * 1024
  }

  /** `cors_origins_list`: a wildcard anywhere collapses the list to just the wildcard. */
  function CorsOriginsList(s: Settings): (r: seq<string>)
    ensures "*" in s.corsOrigins ==> r == ["*"]
    ensures "*" !in s.corsOrigins ==> r == s.corsOrigins
    ensures "*" in r <==> "*" in s.corsOrigins
  {
    if "*" in s.corsOrigins then ["*"] else s.corsOrigins
  }

  /** Deriving the list again from its own result changes nothing, and every configured
      origin is still admitted by the derived list (literally or through the wildcard). */
  lemma CorsOriginsListStable(s: Settings)
    ensures CorsOriginsList(s.(corsOrigins := CorsOriginsList(s))) == CorsOriginsList(s)
    ensures forall o :: o in s.corsOrigins ==> o in CorsOriginsList(s) || "*" in CorsOriginsList(s)
  {
  }
}
