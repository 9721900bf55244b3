// Small value types shared by every module of the project.
module Common {
  datatype Option<+T> = None | Some(value: T)

  datatype Result<+T, +E> = Ok(value: T) | Err(error: E)

  // Number.MAX_SAFE_INTEGER, that is 2^53 - 1.
  const MAX_SAFE_INTEGER: int := 9007199254740991

  predicate IsSafeInteger(n: int) {
    -MAX_SAFE_INTEGER <= n <= MAX_SAFE_INTEGER
  }

  type Byte = x: int | 0 <= x < 256

  ghost predicate Distinct<T>(items: seq<T>) {
    forall i, j :: 0 <= i < j < |items| ==> items[i] != items[j]
  }

  function SetOf<T>(items: seq<T>): set<T> {
    set x | x in items
  }

  function MapSeq<A, B>(f: A -> B, items: seq<A>): (r: seq<B>)
    ensures |r| == |items| && forall i :: 0 <= i < |items| ==> r[i] == f(items[i])
  {
    seq(|items|, i requires 0 <= i < |items| => f(items[i]))
  }

  lemma ConcatAssociates<T>(a: seq<T>, b: seq<T>, c: seq<T>)
    ensures (a + b) + c == a + (b + c)
  {
  }

  lemma {:induction false} SubsetSize<T>(a: set<T>, b: set<T>)
    requires a <= b
    ensures |a| <= |b|
    decreases a
  {
    if a != {} {
      var x :| x in a;
      SubsetSize(a - {x}, b - {x});
    }
  }

  // `new Set(items).size === items.length` is LFSPM's test for distinctness.
  lemma {:induction false} SetSizeDecidesDistinct<T>(items: seq<T>)
    ensures |SetOf(items)| <= |items|
    ensures |SetOf(items)| == |items| <==> Distinct(items)
  {
    if items == [] {
    } else {
      var init, last := items[..|items| - 1], items[|items| - 1];
      assert items == init + [last];
      SetSizeDecidesDistinct(init);
      assert SetOf(items) == SetOf(init) + {last};
      if last in SetOf(init) {
        assert SetOf(items) == SetOf(init);
        var i :| 0 <= i < |init| && init[i] == last;
        assert items[i] == items[|items| - 1];
      } else {
        assert |SetOf(items)| == |SetOf(init)| + 1;
        forall i | 0 <= i < |init| ensures items[i] != last {
          assert items[i] in init;
        }
      }
    }
  }
}
