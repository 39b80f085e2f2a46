/** Sums of a measure over the threads of a machine. */
module Sums {

  function Total<T>(f: T -> nat, ts: seq<T>): nat {
    if |ts| == 0 then 0 else f(ts[0]) + Total(f, ts[1..])
  }

  /** One thread's change moves the total by exactly that thread's change. */
  lemma {:induction false} TotalUpdate<T>(f: T -> nat, ts: seq<T>, i: nat, x: T)
    requires i < |ts|
    ensures Total(f, ts[i := x]) + f(ts[i]) == Total(f, ts) + f(x)
  {
    if i == 0 {
      assert ts[0 := x][1..] == ts[1..];
    } else {
      assert ts[i := x][1..] == ts[1..][i - 1 := x];
      TotalUpdate(f, ts[1..], i - 1, x);
    }
  }

  /** The total is 0 exactly when every summand is, and it bounds each of them. */
  lemma {:induction false} TotalBounds<T>(f: T -> nat, ts: seq<T>)
    ensures Total(f, ts) == 0 <==> forall i :: 0 <= i < |ts| ==> f(ts[i]) == 0
    ensures forall i :: 0 <= i < |ts| ==> f(ts[i]) <= Total(f, ts)
  {
    if |ts| == 0 {
    } else {
      TotalBounds(f, ts[1..]);
      assert forall i :: 0 < i < |ts| ==> ts[i] == ts[1..][i - 1];
      assert forall i :: 0 <= i < |ts[1..]| ==> ts[1..][i] == ts[i + 1];
    }
  }

  /** Equal summands: the total is a product. */
  lemma {:induction false} TotalConstant<T>(f: T -> nat, ts: seq<T>, c: nat)
    requires forall i :: 0 <= i < |ts| ==> f(ts[i]) == c
    ensures Total(f, ts) == |ts| * c
  {
    if |ts| == 0 {
    } else {
      assert forall i :: 0 <= i < |ts[1..]| ==> ts[1..][i] == ts[i + 1];
      TotalConstant(f, ts[1..], c);
    }
  }

  /** Summands that only grow make the total grow, strictly if one of them does. */
  lemma {:induction false} TotalMonotone<T>(f: T -> nat, xs: seq<T>, ys: seq<T>)
    requires |xs| == |ys|
    requires forall i :: 0 <= i < |xs| ==> f(xs[i]) <= f(ys[i])
    ensures Total(f, xs) <= Total(f, ys)
    ensures (exists i :: 0 <= i < |xs| && f(xs[i]) < f(ys[i])) ==> Total(f, xs) < Total(f, ys)
  {
    if |xs| == 0 {
    } else {
      assert forall i :: 0 <= i < |xs[1..]| ==> xs[1..][i] == xs[i + 1] && ys[1..][i] == ys[i + 1];
      TotalMonotone(f, xs[1..], ys[1..]);
      if i :| 0 < i < |xs| && f(xs[i]) < f(ys[i]) {
        assert f(xs[1..][i - 1]) < f(ys[1..][i - 1]);
      }
    }
  }

  lemma {:induction false} TotalAppend<T>(f: T -> nat, ts: seq<T>, x: T)
    ensures Total(f, ts + [x]) == Total(f, ts) + f(x)
  {
    if |ts| == 0 {
    } else {
      assert (ts + [x])[1..] == ts[1..] + [x];
      TotalAppend(f, ts[1..], x);
    }
  }

  lemma {:induction false} TotalAlike<T>(f: T -> nat, g: T -> nat, ts: seq<T>)
    requires forall i :: 0 <= i < |ts| ==> f(ts[i]) == g(ts[i])
    ensures Total(f, ts) == Total(g, ts)
  {
    if |ts| == 0 {
    } else {
      assert forall i :: 0 <= i < |ts[1..]| ==> ts[1..][i] == ts[i + 1];
      TotalAlike(f, g, ts[1..]);
    }
  }
}
