/** Names shared by the model: trade directions, durations in seconds, calendar days of
    exchange-local instants, and the order of strings. */
module Conventions {

  datatype Direction = Long | Short

  const HALF_HOUR := 1800
  const HOUR := 3600
  const DAY_SECONDS := 86400

  function Min(a: int, b: int): int {
    if b < a then b else a
  }

  /** The calendar day an instant falls in. */
  function DayOf(t: int): (d: int)
    ensures d * DAY_SECONDS <= t < (d + 1) * DAY_SECONDS
  {
    t / DAY_SECONDS
  }

  /** Python's string order. */
  predicate StringLe(a: string, b: string) {
    a == "" || (b != "" && (a[0] < b[0] || (a[0] == b[0] && StringLe(a[1..], b[1..]))))
  }

  lemma {:induction false} StringTotal(a: string, b: string)
    ensures StringLe(a, b) || StringLe(b, a)
    ensures StringLe(a, b) && StringLe(b, a) ==> a == b
  {
    if a != "" && b != "" {
      StringTotal(a[1..], b[1..]);
      assert a == [a[0]] + a[1..] && b == [b[0]] + b[1..];
    }
  }

  lemma {:induction false} StringTransitive(a: string, b: string, c: string)
    requires StringLe(a, b) && StringLe(b, c)
    ensures StringLe(a, c)
  {
    if a != "" && a[0] == b[0] && b[0] == c[0] {
      StringTransitive(a[1..], b[1..], c[1..]);
    }
  }
}
