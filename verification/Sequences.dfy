/** Facts about sequences that several modules share. */
module Sequences {
  predicate Distinct(q: seq<nat>) {
    forall i, j :: 0 <= i < j < |q| ==> q[i] != q[j]
  }

  /** A queue or list without the first occurrence of x. */
  function Without(q: seq<nat>, x: nat): seq<nat> {
    if q == [] then [] else if q[0] == x then q[1..] else [q[0]] + Without(q[1..], x)
  }

  lemma {:induction false} WithoutIsGone(q: seq<nat>, x: nat)
    requires Distinct(q)
    ensures x !in Without(q, x) && Distinct(Without(q, x))
    ensures forall y :: y in Without(q, x) <==> y in q && y != x
    decreases |q|
  {
    if q != [] {
      assert q == [q[0]] + q[1..];
      assert forall y :: y in q[1..] ==> y != q[0];
      if q[0] != x {
        WithoutIsGone(q[1..], x);
        var rest := Without(q[1..], x);
        forall i | 0 <= i < |rest| ensures rest[i] != q[0] {
          assert rest[i] in rest && rest[i] in q[1..];
        }
      }
    }
  }

  predicate Ahead(q: seq<nat>, a: nat, b: nat) {
    exists i, j :: 0 <= i < j < |q| && q[i] == a && q[j] == b
  }

  /** Removing something else does not change who is ahead of whom. */
  lemma {:induction false} WithoutKeepsOrder(q: seq<nat>, x: nat, a: nat, b: nat)
    requires Ahead(q, a, b) && x != a && x != b
    ensures Ahead(Without(q, x), a, b)
    decreases |q|
  {
    var i, j :| 0 <= i < j < |q| && q[i] == a && q[j] == b;
    if q[0] == x {
      assert q[1..][i - 1] == a && q[1..][j - 1] == b;
    } else if i == 0 {
      assert q[1..][j - 1] == b && b in q[1..];
      WithoutKeepsOthers(q[1..], x, b);
      var rest := Without(q[1..], x);
      var k :| 0 <= k < |rest| && rest[k] == b;
      assert Without(q, x)[0] == a && Without(q, x)[k + 1] == b;
    } else {
      assert q[1..][i - 1] == a && q[1..][j - 1] == b;
      WithoutKeepsOrder(q[1..], x, a, b);
      var rest := Without(q[1..], x);
      var k, l :| 0 <= k < l < |rest| && rest[k] == a && rest[l] == b;
      assert Without(q, x)[k + 1] == a && Without(q, x)[l + 1] == b;
    }
  }

  lemma {:induction false} WithoutKeepsOthers(q: seq<nat>, x: nat, b: nat)
    requires b in q && b != x
    ensures b in Without(q, x)
    decreases |q|
  {
    if q[0] != x && q[0] != b { WithoutKeepsOthers(q[1..], x, b); }
  }

  lemma SplitAt<T>(before: seq<T>, bytes: seq<T>, k: nat)
    requires k <= |bytes|
    ensures before + bytes == before + bytes[..k] + bytes[k..]
  {
  }
}
