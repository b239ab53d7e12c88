/** Options, results and the few sequence functions the model needs. */
module Collections {

  datatype Option<+T> = None | Some(value: T)

  /** The elements of `xs` that `keep` accepts, in their order. */
  function Filter<T>(xs: seq<T>, keep: T -> bool): seq<T> {
    if xs == [] then []
    else (if keep(xs[0]) then [xs[0]] else []) + Filter(xs[1..], keep)
  }

  function FlatMap<S, T>(f: S -> seq<T>, xs: seq<S>): seq<T> {
    if xs == [] then [] else f(xs[0]) + FlatMap(f, xs[1..])
  }

  function Flatten<T>(pages: seq<seq<T>>): seq<T> {
    if pages == [] then [] else pages[0] + Flatten(pages[1..])
  }

  lemma {:induction false} FilterMembers<T>(xs: seq<T>, keep: T -> bool)
    ensures forall x :: x in Filter(xs, keep) <==> x in xs && keep(x)
  {
    if xs != [] {
      FilterMembers(xs[1..], keep);
      assert xs == [xs[0]] + xs[1..];
    }
  }

  /** The first element that is kept is the first one to be accepted. */
  lemma {:induction false} FilterFirst<T>(xs: seq<T>, keep: T -> bool) returns (i: nat)
    requires Filter(xs, keep) != []
    ensures i < |xs| && keep(xs[i]) && xs[i] == Filter(xs, keep)[0]
    ensures forall j :: 0 <= j < i ==> !keep(xs[j])
  {
    if keep(xs[0]) {
      i := 0;
    } else {
      var k := FilterFirst(xs[1..], keep);
      i := k + 1;
      forall j | 0 <= j < i ensures !keep(xs[j]) {
        assert j > 0 ==> xs[1..][j - 1] == xs[j];
      }
    }
  }

  lemma FilterEmpty<T>(xs: seq<T>, keep: T -> bool)
    requires Filter(xs, keep) == []
    ensures forall j :: 0 <= j < |xs| ==> !keep(xs[j])
  {
    FilterMembers(xs, keep);
    assert forall j :: 0 <= j < |xs| ==> xs[j] in xs;
  }

  /** The last element that is kept is the last one to be accepted. */
  lemma {:induction false} FilterLast<T>(xs: seq<T>, keep: T -> bool) returns (i: nat)
    requires Filter(xs, keep) != []
    ensures i < |xs| && keep(xs[i]) && xs[i] == Filter(xs, keep)[|Filter(xs, keep)| - 1]
    ensures forall j :: i < j < |xs| ==> !keep(xs[j])
  {
    if Filter(xs[1..], keep) != [] {
      var k := FilterLast(xs[1..], keep);
      i := k + 1;
      forall j | i < j < |xs| ensures !keep(xs[j]) {
        assert xs[1..][j - 1] == xs[j];
      }
    } else {
      i := 0;
      FilterMembers(xs[1..], keep);
      forall j | 0 < j < |xs| ensures !keep(xs[j]) {
        assert xs[1..][j - 1] == xs[j];
      }
    }
  }

  /** Filtering keeps the order: what is kept before an element stands before it in the result. */
  lemma {:induction false} FilterIndex<T>(xs: seq<T>, keep: T -> bool, i: nat) returns (p: nat)
    requires i < |Filter(xs, keep)|
    ensures p < |xs| && keep(xs[p]) && xs[p] == Filter(xs, keep)[i]
    ensures forall q :: 0 <= q < p && keep(xs[q]) ==> xs[q] in Filter(xs, keep)[..i]
  {
    var rest := Filter(xs[1..], keep);
    if keep(xs[0]) && i == 0 {
      p := 0;
    } else {
      var k := FilterIndex(xs[1..], keep, if keep(xs[0]) then i - 1 else i);
      p := k + 1;
      forall q | 0 <= q < p && keep(xs[q]) ensures xs[q] in Filter(xs, keep)[..i] {
        if keep(xs[0]) {
          assert Filter(xs, keep)[..i] == [xs[0]] + rest[..i - 1];
        } else {
          assert Filter(xs, keep) == rest;
        }
        assert q > 0 ==> xs[1..][q - 1] == xs[q];
      }
    }
  }

  lemma {:induction false} FilterAll<T>(xs: seq<T>, keep: T -> bool)
    requires forall x :: x in xs ==> keep(x)
    ensures Filter(xs, keep) == xs
  {
    if xs != [] {
      FilterAll(xs[1..], keep);
    }
  }

  lemma {:induction false} FilterNone<T>(xs: seq<T>, keep: T -> bool)
    requires forall x :: x in xs ==> !keep(x)
    ensures Filter(xs, keep) == []
  {
    if xs != [] {
      FilterNone(xs[1..], keep);
    }
  }

  lemma {:induction false} FilterAppend<T>(xs: seq<T>, ys: seq<T>, keep: T -> bool)
    ensures Filter(xs + ys, keep) == Filter(xs, keep) + Filter(ys, keep)
  {
    if xs == [] {
      assert xs + ys == ys;
    } else {
      var head := if keep(xs[0]) then [xs[0]] else [];
      assert (xs + ys)[1..] == xs[1..] + ys && (xs + ys)[0] == xs[0];
      FilterAppend(xs[1..], ys, keep);
      assert Filter(xs + ys, keep) == head + (Filter(xs[1..], keep) + Filter(ys, keep));
      assert Filter(xs, keep) == head + Filter(xs[1..], keep);
    }
  }

  lemma {:induction false} FlatMapMembers<S, T>(f: S -> seq<T>, xs: seq<S>)
    ensures forall y :: y in FlatMap(f, xs) <==> exists x :: x in xs && y in f(x)
  {
    if xs != [] {
      FlatMapMembers(f, xs[1..]);
      assert xs == [xs[0]] + xs[1..];
    }
  }

  lemma {:induction false} FlatMapAppend<S, T>(f: S -> seq<T>, xs: seq<S>, ys: seq<S>)
    ensures FlatMap(f, xs + ys) == FlatMap(f, xs) + FlatMap(f, ys)
  {
    if xs == [] {
      assert xs + ys == ys;
    } else {
      assert (xs + ys)[1..] == xs[1..] + ys;
      FlatMapAppend(f, xs[1..], ys);
    }
  }

  /** One more element at the end, the step every appending loop takes. */
  lemma FlatMapStep<S, T>(f: S -> seq<T>, xs: seq<S>, i: nat)
    requires i < |xs|
    ensures FlatMap(f, xs[..i + 1]) == FlatMap(f, xs[..i]) + f(xs[i])
  {
    assert xs[..i + 1] == xs[..i] + [xs[i]];
    FlatMapAppend(f, xs[..i], [xs[i]]);
    assert [xs[i]][1..] == [];
  }

  lemma FilterStep<T>(xs: seq<T>, keep: T -> bool, i: nat)
    requires i < |xs|
    ensures Filter(xs[..i + 1], keep) == Filter(xs[..i], keep) + (if keep(xs[i]) then [xs[i]] else [])
  {
    assert xs[..i + 1] == xs[..i] + [xs[i]];
    FilterAppend(xs[..i], [xs[i]], keep);
    assert [xs[i]][1..] == [];
  }

  lemma FlattenPrefixStep<T>(pages: seq<seq<T>>, i: nat)
    requires i < |pages|
    ensures Flatten(pages[..i + 1]) == Flatten(pages[..i]) + pages[i]
  {
    FlattenAppend(pages[..i], [pages[i]]);
    assert pages[..i + 1] == pages[..i] + [pages[i]];
    assert [pages[i]][1..] == [];
  }

  lemma {:induction false} FlattenAppend<T>(xs: seq<seq<T>>, ys: seq<seq<T>>)
    ensures Flatten(xs + ys) == Flatten(xs) + Flatten(ys)
  {
    if xs == [] {
      assert xs + ys == ys;
    } else {
      assert (xs + ys)[1..] == xs[1..] + ys;
      FlattenAppend(xs[1..], ys);
    }
  }
}
