/** Optional values, and the JavaScript truthiness tests the sources apply to them. */
module Options {
  datatype Option<+T> = None | Some(value: T)

  /** `if (x)` on an optional string: the empty string counts as absent. */
  predicate Truthy(o: Option<string>) {
    o.Some? && o.value != ""
  }

  /** `if (x)` on an optional instant: zero counts as absent. */
  predicate TruthyTime(o: Option<int>) {
    o.Some? && o.value != 0
  }

  function Min(a: int, b: int): int {
    if a <= b then a else b
  }

  function Max(a: int, b: int): int {
    if a <= b then b else a
  }

  function Abs(a: int): nat {
    if a < 0 then -a else a
  }
}
