/** Validation of the throttle's configuration (`checkOptions`). */
module Options {

  /** A JavaScript value as far as `Number.isInteger` can tell: an integer-valued
      number, or anything else (a missing option, a string, a fractional number). */
  datatype Num = IntVal(value: int) | NonInt

  /** The two configuration errors; the first failing option decides which one. */
  datatype ConfigError = InvalidLimit | InvalidInterval

  /** A configuration that passed validation: both fields are positive. */
  datatype Config = Config(limit: nat, interval: nat)

  datatype Checked = Accepted(config: Config) | Rejected(error: ConfigError)

  /** `Number.isInteger(v) && v > 0` */
  predicate IsPositiveInteger(v: Num) {
    v.IntVal? && v.value > 0
  }

  /** Checks `limit` first, then `interval`; each failure has its own error. */
  function CheckOptions(limit: Num, interval: Num): (r: Checked)
    ensures r.Accepted? <==> IsPositiveInteger(limit) && IsPositiveInteger(interval)
    ensures r.Accepted? ==> r.config.limit > 0 && r.config.interval > 0
    ensures r.Accepted? ==> r.config.limit == limit.value && r.config.interval == interval.value
    ensures r == Rejected(InvalidLimit) <==> !IsPositiveInteger(limit)
    ensures r == Rejected(InvalidInterval) <==> IsPositiveInteger(limit) && !IsPositiveInteger(interval)
  {
    if !(limit.IntVal? && limit.value > 0) then
      Rejected(InvalidLimit)
    else if !(interval.IntVal? && interval.value > 0) then
      Rejected(InvalidInterval)
    else
      Accepted(Config(limit.value, interval.value))
  }
}
