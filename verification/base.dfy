/** Small value wrappers shared by every module of the model. */
module Base {

  /** Rust's `Option`. */
  datatype Option<+T> = None | Some(value: T) {
    function GetOr(default: T): T {
      match this
      case Some(v) => v
      case None => default
    }
  }

  /** The result of code that can panic (an `unwrap` on `None`, an index out of
      range, an unwrap with a message): either it finishes with a value, or it panics with the
      reason Rust would print. */
  datatype Fallible<+T> = Ok(value: T) | Panic(reason: string)

  /** Rust's `Result` for errors the program handles itself. */
  datatype Result<+T, +E> = Success(value: T) | Failure(error: E)

  /** An identifier standing for one connection's write half. */
  type ConnId = nat

  /** `s.ends_with(suffix)`. */
  predicate EndsWith(s: string, suffix: string) {
    |suffix| <= |s| && s[|s| - |suffix|..] == suffix
  }

  /** `s.starts_with(c)`. */
  predicate StartsWith(s: string, c: char) {
    |s| > 0 && s[0] == c
  }

  /** The index of the first occurrence of `x` in `s`, if any: both
      `iter().position(..)` on a list and `str::find` on a character. */
  function IndexOf<T(==)>(s: seq<T>, x: T): (r: Option<nat>)
    ensures r.Some? ==> r.value < |s| && s[r.value] == x && x !in s[..r.value]
    ensures r.None? <==> x !in s
  {
    if s == [] then None
    else if s[0] == x then Some(0)
    else match IndexOf(s[1..], x)
      case None => None
      case Some(i) =>
        assert s[..i + 1] == [s[0]] + s[1..][..i];
        Some(i + 1)
  }
}
