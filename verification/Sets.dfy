// Finite sets: their sizes, and listing their elements.
module Sets {

  lemma {:induction false} SubsetSize<T>(a: set<T>, b: set<T>)
    requires a <= b
    ensures |a| <= |b| && (|a| == |b| ==> a == b)
  {
    if a != {} {
      var x :| x in a;
      SubsetSize(a - {x}, b - {x});
      assert a == (a - {x}) + {x} && b == (b - {x}) + {x};
    }
  }

  // Some order over the elements; nothing depends on which.
  method InSomeOrder<T(==)>(elements: set<T>) returns (order: seq<T>)
    ensures |order| == |elements| && forall x :: x in elements <==> x in order
  {
    order := [];
    var rest := elements;
    while rest != {}
      invariant rest <= elements && |order| + |rest| == |elements|
      invariant forall x :: x in elements <==> x in order || x in rest
    {
      var x :| x in rest;
      order, rest := order + [x], rest - {x};
    }
  }
}
