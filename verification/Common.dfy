/** Small vocabulary shared by the models. */
module Common {

  datatype Option<+T> = None | Some(value: T)

  datatype Result<+T, +E> = Ok(value: T) | Err(error: E)

  datatype DeploymentStatus = Pending | Deploying | DeploySuccess | DeployFailed

  /** What Go reads from a map: the empty string where there is nothing. */
  function Lookup(table: map<string, string>, key: string): string {
    if key in table then table[key] else ""
  }

  /** A queue with one place taken out. */
  function Without<T>(items: seq<T>, i: nat): seq<T>
    requires i < |items|
  {
    items[..i] + items[i + 1..]
  }

  function Min(a: int, b: int): int {
    if a < b then a else b
  }

  /** What stands beside a balance does not disturb it. */
  lemma BalanceBeside<T>(a: multiset<T>, u: multiset<T>, b: multiset<T>, v: multiset<T>, x: multiset<T>)
    requires a + u == b + v
    ensures (a + x) + u == (b + x) + v
  {
    assert (a + x) + u == (a + u) + x;
    assert (b + x) + v == (b + v) + x;
  }
}
