/** Build options of a model, their normal form, and the cache key made from them. */
module AssetOptions {
  import opened Basics
  import opened Wrappers

  /** Options as a caller gives them: every one may be missing. */
  datatype RawOptions = RawOptions(
    compression: Option<string>, longitude: Option<real>, latitude: Option<real>, height: Option<real>,
    maxEntities: Option<int>, maxTriangles: Option<int>, maxTrianglesPerEntity: Option<int>)

  datatype Options = Options(
    compression: string, longitude: real, latitude: real, height: real,
    maxEntities: int, maxTriangles: int, maxTrianglesPerEntity: int)

  /** The settings that stand in for missing options. */
  datatype Settings = Settings(compression: string, maxEntities: int, maxTriangles: int, maxTrianglesPerEntity: int)

  /** `r` is `s` with its letters in lower case. */
  ghost predicate Lowers(s: string, r: string) {
    |r| == |s| && forall i :: 0 <= i < |s| ==> r[i] == if 'A' <= s[i] <= 'Z' then s[i] - 'A' + 'a' else s[i]
  }

  function Lower(s: string): (r: string)
    ensures |r| == |s|
  {
    seq(|s|, i requires 0 <= i < |s| => LowerChar(s[i]))
  }

  function LowerChar(c: char): char {
    if 'A' <= c <= 'Z' then c + 32 as char else c
  }

  predicate KnownCompression(c: string) { c in {"none", "auto", "meshopt", "draco"} }

  function OrElse<T>(value: Option<T>, default: T): T {
    match value
    case Some(v) => v
    case None => default
  }

  /** A missing or zero number falls back to the setting. */
  function NumberOr(value: Option<int>, default: int): int {
    if value.Some? && value.value != 0 then value.value else default
  }

  /** A missing or empty text falls back to the setting. */
  function TextOr(value: Option<string>, default: string): string {
    if value.Some? && value.value != "" then value.value else default
  }

  ghost predicate Clamps(asked: int, low: int, high: int, n: int) {
    low <= n <= high && (low <= asked <= high ==> n == asked) && (asked < low ==> n == low) && (asked > high ==> n == high)
  }

  ghost predicate AtLeast(asked: int, low: int, n: int) {
    low <= n && (low <= asked ==> n == asked) && (asked < low ==> n == low)
  }

  ghost predicate GivenOr(given: Option<real>, default: real, x: real) {
    (given.Some? ==> x == given.value) && (given.None? ==> x == default)
  }

  ghost predicate IsGiven(given: Option<int>) { given.Some? && given.value != 0 }

  ghost predicate IsGivenText(given: Option<string>) { given.Some? && given.value != "" }

  /** Given coordinates are kept. Given limits are kept as far as their range allows, and the
      settings stand in for missing ones. The compression is in lower case. */
  ghost predicate Honoured(raw: RawOptions, settings: Settings, o: Options) {
    && GivenOr(raw.longitude, 101.6869, o.longitude)
    && GivenOr(raw.latitude, 3.1390, o.latitude)
    && GivenOr(raw.height, 0.0, o.height)
    && (if IsGiven(raw.maxEntities) then Clamps(raw.maxEntities.value, 1, 1000, o.maxEntities)
        else Clamps(settings.maxEntities, 1, 1000, o.maxEntities))
    && (if IsGiven(raw.maxTriangles) then AtLeast(raw.maxTriangles.value, 1000, o.maxTriangles)
        else AtLeast(settings.maxTriangles, 1000, o.maxTriangles))
    && (if IsGiven(raw.maxTrianglesPerEntity) then AtLeast(raw.maxTrianglesPerEntity.value, 1000, o.maxTrianglesPerEntity)
        else AtLeast(settings.maxTrianglesPerEntity, 1000, o.maxTrianglesPerEntity))
    && Compresses(raw, settings, o.compression)
  }

  ghost predicate Compresses(raw: RawOptions, settings: Settings, compression: string) {
    && compression in {"none", "auto", "meshopt", "draco"}
    && Lowers(if IsGivenText(raw.compression) then raw.compression.value else settings.compression, compression)
  }

  function NormalizeOptions(raw: RawOptions, settings: Settings): Result<Options, string> {
    var compression := Lower(TextOr(raw.compression, settings.compression));
    if !KnownCompression(compression) then Err("compression must be none, auto, meshopt or draco")
    else Ok(Options(
      compression,
      OrElse(raw.longitude, 101.6869), OrElse(raw.latitude, 3.1390), OrElse(raw.height, 0.0),
      Max(1, Min(NumberOr(raw.maxEntities, settings.maxEntities), 1000)),
      Max(1000, NumberOr(raw.maxTriangles, settings.maxTriangles)),
      Max(1000, NumberOr(raw.maxTrianglesPerEntity, settings.maxTrianglesPerEntity))))
  }

  lemma LowerLowers(s: string, c: string)
    ensures Lowers(s, c) <==> c == Lower(s)
  {}

  /** What was asked for is honoured, and refused exactly when no known compression is the
      text asked for. */
  lemma NormalizeHonours(raw: RawOptions, settings: Settings)
    ensures NormalizeOptions(raw, settings).Ok? ==> Honoured(raw, settings, NormalizeOptions(raw, settings).value)
    ensures NormalizeOptions(raw, settings).Err? <==> forall c :: !Compresses(raw, settings, c)
  {
    hide Lower, Lowers;
    var text := TextOr(raw.compression, settings.compression);
    forall c ensures Lowers(text, c) <==> c == Lower(text) { LowerLowers(text, c); }
    assert Compresses(raw, settings, Lower(text)) <==> KnownCompression(Lower(text));
  }

  /** Normalized options handed in as options again. */
  function AsRaw(o: Options): RawOptions {
    RawOptions(Some(o.compression), Some(o.longitude), Some(o.latitude), Some(o.height),
               Some(o.maxEntities), Some(o.maxTriangles), Some(o.maxTrianglesPerEntity))
  }

  /** Normalizing twice is normalizing once, whatever the settings are the second time. */
  lemma NormalizeIsIdempotent(raw: RawOptions, settings: Settings, later: Settings)
    requires NormalizeOptions(raw, settings).Ok?
    ensures var o := NormalizeOptions(raw, settings).value;
            NormalizeOptions(AsRaw(o), later) == Ok(o)
  {
    var o := NormalizeOptions(raw, settings).value;
    var given := TextOr(raw.compression, settings.compression);
    assert Lower(o.compression) == o.compression by {
      assert forall i :: 0 <= i < |given| ==> LowerChar(LowerChar(given[i])) == LowerChar(given[i]);
    }
    assert o.compression != "";
  }

  /** What a build is made from: the model file of one project of one tenant. */
  datatype Source = Source(tenant: string, project: string, document: string, sha256: string)

  /** The content address of a build. Its hash is taken to be injective, so the key is
      the hashed content itself. */
  datatype CacheKey = CacheKey(source: Source, options: Options)

  function BuildCacheKey(source: Source, raw: RawOptions, settings: Settings): Result<CacheKey, string> {
    match NormalizeOptions(raw, settings)
    case Err(e) => Err(e)
    case Ok(o) => Ok(CacheKey(source, o))
  }

  /** The key of a job, made from its already normalized options, is the key of the
      options as given; two requests share it exactly when source and normal form agree. */
  lemma KeyOfNormalForm(source: Source, raw: RawOptions, other: Source, otherRaw: RawOptions, settings: Settings)
    requires NormalizeOptions(raw, settings).Ok? && NormalizeOptions(otherRaw, settings).Ok?
    ensures var o := NormalizeOptions(raw, settings).value;
            && BuildCacheKey(source, AsRaw(o), settings) == BuildCacheKey(source, raw, settings)
            && (BuildCacheKey(source, AsRaw(o), settings) == BuildCacheKey(other, otherRaw, settings)
                <==> source == other && NormalizeOptions(raw, settings) == NormalizeOptions(otherRaw, settings))
  {
    NormalizeIsIdempotent(raw, settings, settings);
  }

  /** Both ask for the same, be it by leaving out the default. */
  ghost predicate SameWish(a: Option<real>, b: Option<real>, default: real) {
    && (a.Some? && b.Some? ==> a.value == b.value)
    && (a.Some? && b.None? ==> a.value == default) && (a.None? && b.Some? ==> b.value == default)
  }

  ghost predicate SameSite(a: RawOptions, b: RawOptions) {
    && SameWish(a.longitude, b.longitude, 101.6869) && SameWish(a.latitude, b.latitude, 3.1390)
    && SameWish(a.height, b.height, 0.0)
  }

  lemma SameOptionsSameSite(a: RawOptions, b: RawOptions, settings: Settings, o: Options)
    requires Honoured(a, settings, o) && Honoured(b, settings, o)
    ensures SameSite(a, b)
  {}
}
