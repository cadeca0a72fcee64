/** Small values shared by every model: an absent-or-present value and integer extrema. */
module Common {

  /** `None` stands for undefined, null and, where a number is expected, for a non-finite one. */
  datatype Option<+T> = None | Some(value: T) {
    function GetOr(default: T): T {
      match this
      case Some(v) => v
      case None => default
    }
  }

  function Max(a: int, b: int): int { if a >= b then a else b }

  function Min(a: int, b: int): int { if a <= b then a else b }

  /** Negative money and counts are read as zero. */
  function AtLeastZero(a: int): nat { if a >= 0 then a else 0 }
}
