/** Shared vocabulary: bytes, optional values and fallible results. */
module Common {
  type Byte = b: int | 0 <= b < 256

  datatype Option<+T> = None | Some(value: T)

  datatype Result<+T, +E> = Ok(value: T) | Err(error: E)

  datatype Unit = Unit

  function Last<T>(s: seq<T>): T
    requires s != []
  {
    s[|s| - 1]
  }

  function Front<T>(s: seq<T>): seq<T>
    requires s != []
  {
    s[..|s| - 1]
  }

  predicate StartsWith<T(==)>(s: seq<T>, prefix: seq<T>)
  {
    |prefix| <= |s| && s[..|prefix|] == prefix
  }

  /** Concatenation of a sequence of pieces, in order. */
  function Flatten<T>(parts: seq<seq<T>>): seq<T>
  {
    if parts == [] then [] else Flatten(Front(parts)) + Last(parts)
  }

  lemma {:induction false} FlattenConcat<T>(a: seq<seq<T>>, b: seq<seq<T>>)
    ensures Flatten(a + b) == Flatten(a) + Flatten(b)
    decreases |b|
  {
    if b == [] {
      assert a + b == a;
    } else {
      assert Front(a + b) == a + Front(b) && Last(a + b) == Last(b);
      FlattenConcat(a, Front(b));
      assert (Flatten(a) + Flatten(Front(b))) + Last(b) == Flatten(a) + (Flatten(Front(b)) + Last(b));
    }
  }

  /** What follows the last separator, and what precedes it, are determined. */
  lemma {:induction false} CutAtLastUnique<T>(a: seq<T>, x: seq<T>, b: seq<T>, y: seq<T>, separator: T)
    requires separator !in x && separator !in y && a + [separator] + x == b + [separator] + y
    ensures a == b && x == y
  {
    var p, q := a + [separator] + x, b + [separator] + y;
    assert p[|a|] == separator && q[|b|] == separator;
    assert |a| == |b|;
    assert a == p[..|a|] && b == q[..|b|] && x == p[|a| + 1..] && y == q[|b| + 1..];
  }
}
