// config.go: the write-timeout guard of Load and what it buys the model routes.
// Durations are int64 nanoseconds; sums wrap around as in Go.
module Configuration {

  const MAX_INT64 := 0x7FFF_FFFF_FFFF_FFFF
  type Int64 = x: int | -MAX_INT64 - 1 <= x <= MAX_INT64

  const SECOND: Int64 := 1_000_000_000
  const WRITE_TIMEOUT_HEADROOM: Int64 := 15 * SECOND

  function Wrap(x: int): Int64 {
    (x + MAX_INT64 + 1) % (2 * (MAX_INT64 + 1)) - MAX_INT64 - 1
  }

  // A variable of the environment, after time.ParseDuration or strconv.Atoi has read it.
  datatype Variable = Unset | Unparsable | Parsed(value: Int64)

  function GetEnv(v: Variable, fallback: Int64): Int64 {
    match v
    case Unset => fallback
    case Unparsable => fallback
    case Parsed(d) => d
  }

  datatype Environment = Environment(httpReadTimeout: Variable, httpWriteTimeout: Variable,
                                     irisTimeout: Variable, modelTimeout: Variable, maxPromptLen: Variable)

  class Config {
    var httpReadTimeout: Int64
    var httpWriteTimeout: Int64
    var irisTimeout: Int64
    var modelTimeout: Int64
    var maxPromptLen: Int64

    constructor (env: Environment)
      ensures httpReadTimeout == GetEnv(env.httpReadTimeout, 10 * SECOND)
      ensures httpWriteTimeout == Configured(env)
      ensures irisTimeout == GetEnv(env.irisTimeout, 3 * SECOND)
      ensures modelTimeout == ModelTimeout(env)
      ensures maxPromptLen == PromptLimit(env)
    {
      httpReadTimeout := GetEnv(env.httpReadTimeout, 10 * SECOND);
      httpWriteTimeout := GetEnv(env.httpWriteTimeout, 75 * SECOND);
      irisTimeout := GetEnv(env.irisTimeout, 3 * SECOND);
      modelTimeout := GetEnv(env.modelTimeout, 60 * SECOND);
      maxPromptLen := GetEnv(env.maxPromptLen, 2000);
    }
  }

  function Configured(env: Environment): Int64 {
    GetEnv(env.httpWriteTimeout, 75 * SECOND)
  }

  function ModelTimeout(env: Environment): Int64 {
    GetEnv(env.modelTimeout, 60 * SECOND)
  }

  function PromptLimit(env: Environment): Int64 {
    GetEnv(env.maxPromptLen, 2000)
  }

  function Guard(write: Int64, model: Int64): Int64 {
    var minWrite := Wrap(model + WRITE_TIMEOUT_HEADROOM);
    if write > 0 && write < minWrite then minWrite else write
  }

  method Load(env: Environment) returns (cfg: Config)
    ensures fresh(cfg)
    ensures cfg.httpReadTimeout == if env.httpReadTimeout.Parsed? then env.httpReadTimeout.value else 10_000_000_000
    ensures cfg.irisTimeout == if env.irisTimeout.Parsed? then env.irisTimeout.value else 3_000_000_000
    ensures cfg.modelTimeout == if env.modelTimeout.Parsed? then env.modelTimeout.value else 60_000_000_000
    ensures cfg.maxPromptLen == if env.maxPromptLen.Parsed? then env.maxPromptLen.value else 2000
    ensures !env.httpWriteTimeout.Parsed? && !env.modelTimeout.Parsed? ==> cfg.httpWriteTimeout == 75_000_000_000
    ensures cfg.httpWriteTimeout == Guard(Configured(env), ModelTimeout(env))
    ensures cfg.modelTimeout == ModelTimeout(env) && cfg.maxPromptLen == PromptLimit(env)
  {
    cfg := new Config(env);
    var minWrite := Wrap(cfg.modelTimeout + WRITE_TIMEOUT_HEADROOM);
    if cfg.httpWriteTimeout > 0 && cfg.httpWriteTimeout < minWrite {
      cfg.httpWriteTimeout := minWrite;
    }
  }

  predicate FitsInt64(x: int) {
    -MAX_INT64 - 1 <= x <= MAX_INT64
  }

  // The value of a variable that is unset or does not parse.
  predicate IsMissing(v: Variable) {
    v.Unset? || v.Unparsable?
  }

  // The defaults: 10 s to read, 75 s to write, 3 s for iris, 60 s for the model, 2000 characters.
  lemma Defaults(env: Environment)
    ensures IsMissing(env.httpWriteTimeout) ==> Configured(env) == 75_000_000_000
    ensures IsMissing(env.modelTimeout) ==> ModelTimeout(env) == 60_000_000_000
    ensures IsMissing(env.maxPromptLen) ==> PromptLimit(env) == 2000
    ensures IsMissing(env.httpWriteTimeout) && IsMissing(env.modelTimeout) ==>
              Guard(Configured(env), ModelTimeout(env)) == 75_000_000_000
    ensures env.httpWriteTimeout.Parsed? ==> Configured(env) == env.httpWriteTimeout.value
    ensures env.modelTimeout.Parsed? ==> ModelTimeout(env) == env.modelTimeout.value
    ensures env.maxPromptLen.Parsed? ==> PromptLimit(env) == env.maxPromptLen.value
  {
  }

  function Cleared(v: Variable): Variable {
    if v.Unparsable? then Unset else v
  }

  // A variable that does not parse has no more effect than one that is not set.
  lemma UnparsableIsUnset(env: Environment)
    ensures var clean := Environment(Cleared(env.httpReadTimeout), Cleared(env.httpWriteTimeout),
                                     Cleared(env.irisTimeout), Cleared(env.modelTimeout), Cleared(env.maxPromptLen));
            && ModelTimeout(clean) == ModelTimeout(env) && PromptLimit(clean) == PromptLimit(env)
            && Guard(Configured(clean), ModelTimeout(clean)) == Guard(Configured(env), ModelTimeout(env))
            && forall v, fallback :: GetEnv(Cleared(v), fallback) == GetEnv(v, fallback)
  {
  }

  // A write deadline that is disabled or leaves the headroom above the model timeout.
  predicate Covers(write: int, model: Int64) {
    write <= 0 || write >= model + 15 * SECOND
  }

  // Where the sum fits, the guard is the least raise of the configured value that covers
  // the model timeout; it keeps a disabled deadline and is idempotent. Where the sum
  // overflows, the guard does nothing.
  lemma GuardIsLeastRaise(write: Int64, model: Int64)
    ensures FitsInt64(model + 15 * SECOND) ==>
              var g := Guard(write, model);
              && write <= g && Covers(g, model)
              && (forall x: int :: write <= x && Covers(x, model) ==> g <= x)
              && (write <= 0 ==> g == write)
              && Guard(g, model) == g
    ensures !FitsInt64(model + 15 * SECOND) ==> Guard(write, model) == write
  {
    WrapFits(model + 15 * SECOND);
  }

  lemma WrapFits(x: int)
    ensures FitsInt64(x) ==> Wrap(x) == x
    ensures x > MAX_INT64 && x <= MAX_INT64 + MAX_INT64 ==> Wrap(x) == x - 18446744073709551616 < 0
  {
  }
}
