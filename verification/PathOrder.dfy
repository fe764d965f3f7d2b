/** The order `sorted()` puts paths in: code point by code point, a prefix before what extends it. */
module PathOrder {
  predicate Before(a: string, b: string) {
    b != "" && (a == "" || a[0] < b[0] || (a[0] == b[0] && Before(a[1..], b[1..])))
  }

  lemma {:induction false} Transitive(a: string, b: string, c: string)
    requires Before(a, b) && Before(b, c)
    ensures Before(a, c)
  {
    if a != "" && a[0] == b[0] == c[0] {
      Transitive(a[1..], b[1..], c[1..]);
    }
  }

  lemma {:induction false} Irreflexive(a: string)
    ensures !Before(a, a)
  {
    if a != "" {
      Irreflexive(a[1..]);
    }
  }

  lemma {:induction false} Total(a: string, b: string)
    ensures Before(a, b) || a == b || Before(b, a)
  {
    if a != "" && b != "" && a[0] == b[0] {
      Total(a[1..], b[1..]);
      assert a == [a[0]] + a[1..] && b == [b[0]] + b[1..];
    }
  }

  lemma {:induction false} PrefixComesFirst(a: string, b: string)
    requires a <= b && a != b
    ensures Before(a, b)
  {
    if a != "" {
      assert a == [a[0]] + a[1..] && b == [b[0]] + b[1..];
      PrefixComesFirst(a[1..], b[1..]);
    }
  }

  predicate Sorted(order: seq<string>) { forall i, j :: 0 <= i < j < |order| ==> Before(order[i], order[j]) }

  lemma OnlyOneBefore(a: string, b: string)
    ensures !(Before(a, b) && Before(b, a))
  {
  }

  function Insert(x: string, order: seq<string>): seq<string> {
    if order == [] then [x]
    else if Before(x, order[0]) then [x] + order
    else [order[0]] + Insert(x, order[1..])
  }

  lemma {:induction false} InsertSorts(x: string, order: seq<string>)
    requires Sorted(order) && x !in order
    ensures Sorted(Insert(x, order)) && forall y :: y in Insert(x, order) <==> y == x || y in order
  {
    if order != [] {
      var rest := order[1..];
      assert order == [order[0]] + rest;
      if Before(x, order[0]) {
        forall k | 0 <= k < |order|
          ensures Before(x, order[k])
        {
          if k > 0 {
            Transitive(x, order[0], order[k]);
          }
        }
      } else {
        Total(x, order[0]);
        InsertSorts(x, rest);
        forall y | y in Insert(x, rest)
          ensures Before(order[0], y)
        {
          assert y in rest ==> exists k :: 0 < k < |order| && order[k] == y;
        }
      }
    }
  }

  method SortPaths(paths: set<string>) returns (order: seq<string>)
    ensures Sorted(order) && forall p :: p in order <==> p in paths
  {
    order := [];
    var rest := paths;
    while rest != {}
      invariant rest <= paths && Sorted(order)
      invariant forall p :: p in order <==> p in paths && p !in rest
      decreases rest
    {
      var p :| p in rest;
      InsertSorts(p, order);
      order := Insert(p, order);
      rest := rest - {p};
    }
  }
}
