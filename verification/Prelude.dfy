module Prelude {
  datatype Option<+T> = None | Some(value: T)

  /** The elements of a set in some order. */
  ghost predicate IsListing<T(!new)>(list: seq<T>, items: set<T>) {
    (forall x :: x in list <==> x in items) && forall i, j :: 0 <= i < j < |list| ==> list[i] != list[j]
  }

  method ListOf<T(==, !new)>(items: set<T>) returns (list: seq<T>)
    ensures IsListing(list, items)
  {
    var rest := items;
    list := [];
    while rest != {}
      invariant rest <= items && IsListing(list, items - rest)
      decreases |rest|
    {
      var x :| x in rest;
      rest := rest - {x};
      assert x !in list;
      list := list + [x];
    }
  }

  lemma {:induction false} AnyListing<T(!new)>(items: set<T>) returns (list: seq<T>)
    ensures IsListing(list, items)
    decreases |items|
  {
    list := [];
    if items != {} {
      var x :| x in items;
      var rest := AnyListing(items - {x});
      list := [x] + rest;
    }
  }

  lemma {:induction false} ListingSize<T(!new)>(list: seq<T>, items: set<T>)
    requires IsListing(list, items)
    ensures |list| == |items|
    decreases |list|
  {
    if list == [] {
      assert forall x :: x in items ==> x in list;
      assert items == {};
    } else {
      var n := |list| - 1;
      assert forall x :: x in list[..n] <==> x in items - {list[n]};
      ListingSize(list[..n], items - {list[n]});
    }
  }

  lemma {:induction false} SubsetSize<T>(a: set<T>, b: set<T>)
    requires a <= b
    ensures |a| <= |b|
    decreases |a|
  {
    if a != {} {
      var x :| x in a;
      SubsetSize(a - {x}, b - {x});
    }
  }
}
