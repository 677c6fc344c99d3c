/** The order `Array.prototype.sort()` puts date keys in (string
    comparison, character by character), and the newest-first list that
    `Object.keys(sessionsByDate).sort().reverse()` produces. */
module DateOrder {

  /** `a < b` on strings: the first differing character decides, and a
      proper prefix comes first. */
  predicate Before(a: string, b: string) {
    if a == [] then b != []
    else if b == [] then false
    else if a[0] != b[0] then a[0] < b[0]
    else Before(a[1..], b[1..])
  }

  lemma {:induction false} BeforeIrreflexive(a: string)
    ensures !Before(a, a)
  {
    if a != [] {
      BeforeIrreflexive(a[1..]);
    }
  }

  lemma {:induction false} BeforeTransitive(a: string, b: string, c: string)
    requires Before(a, b) && Before(b, c)
    ensures Before(a, c)
  {
    if a != [] && b != [] && c != [] && a[0] == b[0] && b[0] == c[0] {
      BeforeTransitive(a[1..], b[1..], c[1..]);
    }
  }

  /** Any two different strings are ordered one way or the other. */
  lemma {:induction false} BeforeTotal(a: string, b: string)
    requires a != b
    ensures Before(a, b) || Before(b, a)
  {
    if a != [] && b != [] && a[0] == b[0] {
      assert a == [a[0]] + a[1..] && b == [b[0]] + b[1..];
      BeforeTotal(a[1..], b[1..]);
    }
  }

  /** Strictly newest first: every later key sorts before every earlier
      one. */
  predicate Descending(r: seq<string>) {
    forall i, j :: 0 <= i < j < |r| ==> Before(r[j], r[i])
  }

  predicate Distinct(ds: seq<string>) {
    forall i, j :: 0 <= i < j < |ds| ==> ds[i] != ds[j]
  }

  /** A strictly descending list repeats no key. */
  lemma DescendingIsDistinct(r: seq<string>)
    requires Descending(r)
    ensures Distinct(r)
  {
    forall i, j | 0 <= i < j < |r|
      ensures r[i] != r[j]
    {
      BeforeIrreflexive(r[i]);
    }
  }

  /** Puts a new key into a newest-first list at its place. */
  function Insert(x: string, r: seq<string>): (q: seq<string>)
    requires Descending(r) && x !in r
    ensures Descending(q)
    ensures |q| == |r| + 1
    ensures forall y :: y in q <==> y == x || y in r
  {
    if r == [] then [x]
    else if Before(r[0], x) then
      assert forall j :: 0 < j < |r| ==> Before(r[j], x) by {
        forall j | 0 < j < |r|
          ensures Before(r[j], x)
        {
          BeforeTransitive(r[j], r[0], x);
        }
      }
      [x] + r
    else
      BeforeTotal(x, r[0]);
      var t := Insert(x, r[1..]);
      assert forall y :: y in t ==> Before(y, r[0]) by {
        forall y | y in t
          ensures Before(y, r[0])
        {
          if y != x {
            var j :| 0 <= j < |r[1..]| && r[1..][j] == y;
            assert r[j + 1] == y;
          }
        }
      }
      assert forall j :: 0 <= j < |t| ==> t[j] in t;
      [r[0]] + t
  }

  /** `keys.sort().reverse()` on distinct keys: the same keys, newest
      first. */
  function NewestFirst(keys: seq<string>): (r: seq<string>)
    requires Distinct(keys)
    ensures Descending(r)
    ensures |r| == |keys|
    ensures forall y :: y in r <==> y in keys
  {
    if keys == [] then []
    else
      var init := keys[..|keys| - 1];
      var last := keys[|keys| - 1];
      assert last !in init by {
        forall j | 0 <= j < |init|
          ensures init[j] != last
        {
          assert init[j] == keys[j];
        }
      }
      assert forall y :: y in keys <==> y in init || y == last by {
        assert keys == init + [last];
      }
      Insert(last, NewestFirst(init))
  }
}
