/** Optional values, standing in for JavaScript's `undefined`/`null` and for
    the result of a first-match `Array.prototype.find`. */
module Wrappers {

  datatype Option<+T> = None | Some(value: T) {

    /** The value, or `default` when absent (JavaScript's `x ?? default`). */
    function GetOr(default: T): T {
      match this
      case Some(v) => v
      case None => default
    }
  }

  /** The value as a list of at most one element, for "push only if present". */
  function AsSeq<T>(o: Option<T>): (r: seq<T>)
    ensures |r| <= 1
    ensures r == [] <==> o.None?
    ensures o.Some? ==> r[0] == o.value
  {
    match o
    case None => []
    case Some(v) => [v]
  }

  /** Number of present entries in `xs`. */
  function CountSome<T>(xs: seq<Option<T>>): nat
  {
    if |xs| == 0 then 0
    else (if xs[0].Some? then 1 else 0) + CountSome(xs[1..])
  }

  /** The present values of `xs`, in order: `xs.filter(Boolean)` over a list
      whose absent entries are `null`. */
  function Somes<T(==)>(xs: seq<Option<T>>): (r: seq<T>)
    ensures |r| == CountSome(xs)
    ensures r == [] <==> forall i :: 0 <= i < |xs| ==> xs[i].None?
    ensures forall i :: 0 <= i < |r| ==> Some(r[i]) in xs
    ensures forall j :: 0 <= j < |xs| && xs[j].Some? ==> xs[j].value in r
  {
    if |xs| == 0 then []
    else
      var rest := Somes(xs[1..]);
      assert forall i :: 1 <= i < |xs| ==> xs[i] == xs[1..][i - 1];
      match xs[0]
      case Some(v) => [v] + rest
      case None => rest
  }

  /** `filter` distributes over concatenation: the present values of `a + b`
      are those of `a` followed by those of `b`. Together with the singleton
      cases below this pins down the result completely, order and repeats
      included. */
  lemma {:induction false} SomesAppend<T>(a: seq<Option<T>>, b: seq<Option<T>>)
    ensures Somes(a + b) == Somes(a) + Somes(b)
    decreases |a|
  {
    if |a| == 0 {
      assert a + b == b;
    } else {
      assert (a + b)[1..] == a[1..] + b;
      SomesAppend(a[1..], b);
    }
  }

  /** `Somes` of a non-empty list: the first entry's value, if present,
      followed by the present values of the rest. */
  lemma SomesCons<T>(xs: seq<Option<T>>)
    requires |xs| > 0
    ensures Somes(xs) == AsSeq(xs[0]) + Somes(xs[1..])
  {
  }

  /** Mapping the present entries and then dropping the absent ones is
      dropping first and mapping afterwards: order and repeats carry over. */
  lemma {:induction false} SomesMap<T, U>(xs: seq<Option<T>>, f: T -> U, ys: seq<Option<U>>)
    requires |ys| == |xs|
    requires forall i :: 0 <= i < |xs| ==> ys[i] == if xs[i].Some? then Some(f(xs[i].value)) else None
    ensures |Somes(ys)| == |Somes(xs)|
    ensures forall i :: 0 <= i < |Somes(ys)| ==> Somes(ys)[i] == f(Somes(xs)[i])
    decreases |xs|
  {
    if |xs| > 0 {
      var xt, yt := xs[1..], ys[1..];
      forall i | 0 <= i < |xt| ensures yt[i] == if xt[i].Some? then Some(f(xt[i].value)) else None {
        assert xt[i] == xs[i + 1] && yt[i] == ys[i + 1];
      }
      SomesMap(xt, f, yt);
      SomesCons(xs);
      SomesCons(ys);
      var rx, ry := Somes(xt), Somes(yt);
      if xs[0].Some? {
        var sx, sy := [xs[0].value] + rx, [f(xs[0].value)] + ry;
        assert Somes(xs) == sx && Somes(ys) == sy;
        forall i | 0 <= i < |sy| ensures sy[i] == f(sx[i]) {
          if i > 0 {
            assert sy[i] == ry[i - 1] && sx[i] == rx[i - 1];
          }
        }
      } else {
        assert Somes(xs) == rx && Somes(ys) == ry;
      }
    }
  }

  /** A present entry is kept as it is; an absent one is dropped. */
  lemma SomesSingleton<T>(v: T)
    ensures Somes([Some(v)]) == [v]
    ensures Somes<T>([None]) == []
  {
  }
}
