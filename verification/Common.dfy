/** Result types and the few small sums and filters the other modules share. */
module Common {

  datatype Option<+T> = None | Some(value: T)

  /** The error codes of src/utils/errors.ts that the modelled operations raise. */
  datatype Refusal = BadRequest | Forbidden | NotFound | Conflict | RateLimited | Unexpected

  /** A service function either returns or throws; a throw inside a transaction rolls it back. */
  datatype Outcome<+T> = Done(value: T) | Refused(why: Refusal)

  type Pos = x: int | 1 <= x witness 1

  /** `COALESCE(old, now())`: the first time something happened is kept. */
  function Coalesce<T>(kept: Option<T>, now: T): Option<T> {
    if kept.Some? then kept else Some(now)
  }

  lemma LessThanOne(x: int, step: Pos)
    requires x * step < step
    ensures x < 1
  {
  }

  lemma QuotientIs(x: int, step: Pos, k: int, rest: int)
    requires x == k * step + rest && 0 <= rest < step
    ensures x / step == k
  {
    var q := x / step;
    assert (k - q) * step == k * step - q * step;
    assert (q - k) * step == q * step - k * step;
    LessThanOne(k - q, step);
    LessThanOne(q - k, step);
  }
}
