/** What several modules need. */
module Common {
  datatype Option<T> = None | Some(value: T)

  predicate Is(o: Option<nat>, q: nat) {
    o.Some? && o.value == q
  }

  ghost predicate NoDup(r: seq<nat>) {
    forall i, j :: 0 <= i < j < |r| ==> r[i] != r[j]
  }

  /** A finite schedule of events. */
  datatype Schedule<E> = Stop | Then(event: E, rest: Schedule<E>)

  function Concat<E>(es: Schedule<E>, fs: Schedule<E>): Schedule<E> {
    match es
    case Stop => fs
    case Then(e, rest) => Then(e, Concat(rest, fs))
  }

  lemma {:induction false} ModMultiple(m: nat, k: nat, r: nat)
    requires m > 0
    ensures (m * k + r) % m == r % m
  {
    if k > 0 {
      ModMultiple(m, k - 1, r);
      assert m * k + r == m * (k - 1) + r + m;
      ModPlus(m, m * (k - 1) + r);
    }
  }

  lemma ModPlus(m: nat, x: nat)
    requires m > 0
    ensures (x + m) % m == x % m
  {
    ModUnique(m, x + m, x / m + 1, x % m);
  }

  lemma ModUnique(m: nat, x: nat, q: nat, r: nat)
    requires m > 0 && x == m * q + r && r < m
    ensures x % m == r
  {
    var d := x / m - q;
    assert m * d == r - x % m;
  }
}
