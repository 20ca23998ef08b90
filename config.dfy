/**
 * The global configuration of the current revision, loaded from the process
 * environment with fixed fallbacks, and the strconv.Atoi it relies on.
 */
module Config {
  import opened Wrappers

  /** The process environment; os.Getenv gives "" for an unset variable. */
  type Environ = map<string, string>

  function Getenv(env: Environ, key: string): (v: string)
    ensures key !in env ==> v == ""
  {
    if key in env then env[key] else ""
  }

  const MinInt64 := -0x8000_0000_0000_0000
  const MaxInt64 := 0x7fff_ffff_ffff_ffff

  predicate IsDigit(c: char) {
    '0' <= c <= '9'
  }

  predicate AllDigits(s: string) {
    forall i :: 0 <= i < |s| ==> IsDigit(s[i])
  }

  /** The value of a run of decimal digits, most significant first. */
  function DigitsValue(s: string): nat
    requires AllDigits(s)
    decreases |s|
  {
    if |s| == 0 then 0
    else DigitsValue(s[..|s| - 1]) * 10 + (s[|s| - 1] as int - '0' as int)
  }

  /**
   * strconv.Atoi on a 64-bit platform: an optional '+' or '-', then one or more
   * decimal digits, and a value that fits in 64 bits; anything else is an error (None).
   */
  function Atoi(s: string): (r: Option<int>)
    ensures r.Some? ==> MinInt64 <= r.value <= MaxInt64
    ensures s == "" ==> r.None?
  {
    var signed := |s| > 0 && (s[0] == '+' || s[0] == '-');
    var digits := if signed then s[1..] else s;
    if |digits| == 0 || !AllDigits(digits) then None
    else
      var v := if signed && s[0] == '-' then -(DigitsValue(digits) as int) else DigitsValue(digits);
      if MinInt64 <= v <= MaxInt64 then Some(v) else None
  }

  /** The decimal digits of a natural number (strconv.Itoa of a non-negative int). */
  function NatText(n: nat): (s: string)
    ensures |s| >= 1 && AllDigits(s)
  {
    if n < 10 then [('0' as int + n) as char]
    else NatText(n / 10) + [('0' as int + n % 10) as char]
  }

  lemma {:induction false} NatTextValue(n: nat)
    ensures DigitsValue(NatText(n)) == n
  {
    if n >= 10 {
      NatTextValue(n / 10);
      var s := NatText(n);
      assert s[..|s| - 1] == NatText(n / 10);
    }
  }

  /** strconv.Itoa: the decimal text of an integer, with '-' for a negative one. */
  function Itoa(n: int): (s: string)
    ensures |s| >= 1
  {
    if n < 0 then "-" + NatText(-n) else NatText(n)
  }

  /** Atoi reads back what Itoa writes, for every 64-bit integer. */
  lemma AtoiItoa(n: int)
    requires MinInt64 <= n <= MaxInt64
    ensures Atoi(Itoa(n)) == Some(n)
  {
    if n < 0 {
      NatTextValue(-n);
      assert Itoa(n)[1..] == NatText(-n);
    } else {
      NatTextValue(n);
      assert IsDigit(NatText(n)[0]);
    }
  }

  /** A text with a character that is neither a sign nor a digit, after the first, is not a number. */
  lemma AtoiRejects(s: string, k: nat)
    requires 0 < k < |s| && !IsDigit(s[k])
    ensures Atoi(s).None?
  {
    var signed := |s| > 0 && (s[0] == '+' || s[0] == '-');
    var digits := if signed then s[1..] else s;
    assert digits[if signed then k - 1 else k] == s[k];
  }

  /** The configuration as a value. */
  datatype Settings = Settings(port: int, mediaDir: string, chunkSize: int, redisAddr: string)

  const DefaultPort := 6969
  const DefaultMediaDir := "./media"
  const DefaultChunkSize := 10 * 1048576   // 10 << 20
  const DefaultRedisAddr := "localhost:6379"

  /**
   * The configuration an environment determines: PORT and CHUNK_SIZE when they parse
   * as integers, MEDIA_DIR and REDIS_URI when they are non-empty, and the fallbacks
   * 6969, "./media", 10 << 20 and "localhost:6379" otherwise.
   */
  function SettingsFor(env: Environ): (c: Settings)
    ensures Atoi(Getenv(env, "PORT")).Some? ==> c.port == Atoi(Getenv(env, "PORT")).value
    ensures Atoi(Getenv(env, "PORT")).None? ==> c.port == DefaultPort
    ensures c.mediaDir == (if Getenv(env, "MEDIA_DIR") != "" then env["MEDIA_DIR"] else DefaultMediaDir)
    ensures Atoi(Getenv(env, "CHUNK_SIZE")).Some? ==> c.chunkSize == Atoi(Getenv(env, "CHUNK_SIZE")).value
    ensures Atoi(Getenv(env, "CHUNK_SIZE")).None? ==> c.chunkSize == DefaultChunkSize
    ensures c.redisAddr == (if Getenv(env, "REDIS_URI") != "" then env["REDIS_URI"] else DefaultRedisAddr)
  {
    var port := Atoi(Getenv(env, "PORT"));
    var dir := Getenv(env, "MEDIA_DIR");
    var size := Atoi(Getenv(env, "CHUNK_SIZE"));
    var addr := Getenv(env, "REDIS_URI");
    Settings(if port.Some? then port.value else DefaultPort,
             if dir != "" then dir else DefaultMediaDir,
             if size.Some? then size.value else DefaultChunkSize,
             if addr != "" then addr else DefaultRedisAddr)
  }

  /** An empty environment gives every fallback. */
  lemma EmptyEnvironment()
    ensures SettingsFor(map[]) == Settings(6969, "./media", 10485760, "localhost:6379")
  {
  }

  /** Each setting depends only on its own variable. */
  lemma SettingsIndependent(e1: Environ, e2: Environ)
    ensures Getenv(e1, "PORT") == Getenv(e2, "PORT") ==> SettingsFor(e1).port == SettingsFor(e2).port
    ensures Getenv(e1, "MEDIA_DIR") == Getenv(e2, "MEDIA_DIR") ==> SettingsFor(e1).mediaDir == SettingsFor(e2).mediaDir
    ensures Getenv(e1, "CHUNK_SIZE") == Getenv(e2, "CHUNK_SIZE") ==> SettingsFor(e1).chunkSize == SettingsFor(e2).chunkSize
    ensures Getenv(e1, "REDIS_URI") == Getenv(e2, "REDIS_URI") ==> SettingsFor(e1).redisAddr == SettingsFor(e2).redisAddr
  {
  }

  /** A port written as decimal text is the port that is used. */
  lemma PortFromText(env: Environ, p: int)
    requires MinInt64 <= p <= MaxInt64
    requires "PORT" in env && env["PORT"] == Itoa(p)
    ensures SettingsFor(env).port == p
  {
    AtoiItoa(p);
  }

  /** The global `Conf`, whose fields LoadConfig assigns one after another. */
  class Conf {
    var port: int
    var mediaDir: string
    var chunkSize: int
    var redisAddr: string

    function Value(): Settings
      reads this
    {
      Settings(port, mediaDir, chunkSize, redisAddr)
    }

    /** `Config{}`: every field at its zero value. */
    constructor ()
      ensures Value() == Settings(0, "", 0, "")
    {
      port, mediaDir, chunkSize, redisAddr := 0, "", 0, "";
    }

    /** LoadConfig: every field from its variable or fallback, whatever it held before. */
    method LoadConfig(env: Environ)
      modifies this
      ensures Value() == SettingsFor(env)
    {
      var port := Atoi(Getenv(env, "PORT"));
      if port.Some? {
        this.port := port.value;
      } else {
        this.port := DefaultPort;
      }
      var dir := Getenv(env, "MEDIA_DIR");
      if dir != "" {
        mediaDir := dir;
      } else {
        mediaDir := DefaultMediaDir;
      }
      var size := Atoi(Getenv(env, "CHUNK_SIZE"));
      if size.Some? {
        chunkSize := size.value;
      } else {
        chunkSize := DefaultChunkSize;
      }
      var addr := Getenv(env, "REDIS_URI");
      if addr != "" {
        redisAddr := addr;
      } else {
        redisAddr := DefaultRedisAddr;
      }
    }
  }
}
