/** Joining texts with a separator. */
module Joining {
  function Join(parts: seq<string>, separator: string): string {
    if |parts| == 0 then "" else if |parts| == 1 then parts[0] else parts[0] + separator + Join(parts[1..], separator)
  }

  /** First parts without the separator are told apart by the joined text. */
  lemma {:induction false} SplitAt(separator: char, a: string, x: string, b: string, y: string)
    requires separator !in a && separator !in b && a + [separator] + x == b + [separator] + y
    ensures a == b && x == y
  {
    var left, right := a + [separator] + x, b + [separator] + y;
    if a == "" || b == "" {
      assert left[0] == right[0];
      assert a == b;
      assert left[1..] == x && right[1..] == y;
    } else {
      assert left[0] == a[0] && right[0] == b[0];
      assert left[1..] == a[1..] + [separator] + x && right[1..] == b[1..] + [separator] + y;
      SplitAt(separator, a[1..], x, b[1..], y);
      assert a == [a[0]] + a[1..] && b == [b[0]] + b[1..];
    }
  }
}
