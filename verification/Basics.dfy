/** Small shared vocabulary: options and integer bounds. */
module Basics {
  datatype Option<+T> = None | Some(value: T)

  function Min(a: int, b: int): int {
    if a <= b then a else b
  }

  function Max(a: int, b: int): int {
    if a >= b then a else b
  }

  /** Every entry of a log stands in relation `ok` to what came before it. */
  ghost predicate Always<T>(log: seq<T>, ok: (seq<T>, T) -> bool) {
    forall k | 0 <= k < |log| :: ok(log[..k], log[k])
  }

  lemma AlwaysAppend<T>(log: seq<T>, a: T, ok: (seq<T>, T) -> bool)
    requires Always(log, ok) && ok(log, a)
    ensures Always(log + [a], ok)
  {
    var longer := log + [a];
    forall k | 0 <= k < |longer| ensures ok(longer[..k], longer[k]) {
      if k < |log| {
        assert longer[..k] == log[..k] && ok(log[..k], log[k]);
      } else {
        assert longer[..k] == log;
      }
    }
  }
}
