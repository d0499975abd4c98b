/** Option, Result and the handful of sequence combinators the routers are built from. */
module Foundations {

  datatype Option<+T> = None | Some(value: T) {
    function UnwrapOr(default: T): T {
      match this
      case Some(v) => v
      case None => default
    }
  }

  datatype Result<+T, +E> = Ok(value: T) | Err(error: E) {
    predicate IsFailure() {
      Err?
    }

    function PropagateFailure<U>(): Result<U, E>
      requires Err?
    {
      Err(error)
    }

    function Extract(): T
      requires Ok?
    {
      value
    }
  }

  // ---------------------------------------------------------------- FoldM

  /** Runs `step` over `xs` from left to right, stopping at the first error. */
  function FoldM<A, B, E>(step: (B, A) -> Result<B, E>, acc: B, xs: seq<A>): Result<B, E> {
    if |xs| == 0 then Ok(acc)
    else
      var next :- step(acc, xs[0]);
      FoldM(step, next, xs[1..])
  }

  /** A fold over a concatenation is the fold over the front followed by the fold over the back. */
  lemma {:induction false} FoldMAppend<A, B, E>(step: (B, A) -> Result<B, E>, acc: B, xs: seq<A>, ys: seq<A>)
    ensures FoldM(step, acc, xs + ys) ==
            match FoldM(step, acc, xs)
            case Ok(mid) => FoldM(step, mid, ys)
            case Err(e) => Err(e)
  {
    if |xs| == 0 {
      assert xs + ys == ys;
    } else {
      assert (xs + ys)[1..] == xs[1..] + ys;
      if step(acc, xs[0]).Ok? {
        FoldMAppend(step, step(acc, xs[0]).value, xs[1..], ys);
      }
    }
  }

  lemma FoldMSnoc<A, B, E>(step: (B, A) -> Result<B, E>, acc: B, xs: seq<A>, x: A)
    ensures FoldM(step, acc, xs + [x]) ==
            match FoldM(step, acc, xs)
            case Ok(mid) => step(mid, x)
            case Err(e) => Err(e)
  {
    FoldMAppend(step, acc, xs, [x]);
    if FoldM(step, acc, xs).Ok? {
      var mid := FoldM(step, acc, xs).value;
      assert [x][1..] == [];
      assert FoldM(step, mid, [x]) == step(mid, x);
    }
  }

  // ------------------------------------------------------------- Traverse

  /** The results of `f` on every element, or the first error. */
  function Traverse<A, B, E>(f: A -> Result<B, E>, xs: seq<A>): Result<seq<B>, E> {
    if |xs| == 0 then Ok([])
    else
      var head :- f(xs[0]);
      var tail :- Traverse(f, xs[1..]);
      Ok([head] + tail)
  }

  /** `Traverse` of the rest of a list whose first elements gave `front`. */
  function Resume<B, E>(front: seq<B>, rest: Result<seq<B>, E>): Result<seq<B>, E> {
    match rest
    case Ok(back) => Ok(front + back)
    case Err(e) => Err(e)
  }

  lemma {:induction false} TraverseAppend<A, B, E>(f: A -> Result<B, E>, xs: seq<A>, ys: seq<A>)
    ensures Traverse(f, xs + ys) ==
            match Traverse(f, xs)
            case Ok(front) => Resume(front, Traverse(f, ys))
            case Err(e) => Err(e)
  {
    if |xs| == 0 {
      assert xs + ys == ys;
      if Traverse(f, ys).Ok? {
        assert [] + Traverse(f, ys).value == Traverse(f, ys).value;
      }
    } else {
      assert (xs + ys)[1..] == xs[1..] + ys;
      TraverseAppend(f, xs[1..], ys);
      if f(xs[0]).Ok? && Traverse(f, xs[1..]).Ok? && Traverse(f, ys).Ok? {
        var h, t, b := f(xs[0]).value, Traverse(f, xs[1..]).value, Traverse(f, ys).value;
        assert [h] + (t + b) == ([h] + t) + b;
      }
    }
  }

  lemma TraverseOne<A, B, E>(f: A -> Result<B, E>, x: A)
    ensures Traverse(f, [x]) == match f(x) case Ok(b) => Ok([b]) case Err(e) => Err(e)
  {
    var rest: seq<A> := [];
    assert [x][1..] == rest && Traverse(f, rest) == Ok([]);
    if f(x).Ok? {
      assert [f(x).value] + [] == [f(x).value];
    }
  }

  /** `Traverse` succeeds exactly when every element does, element by element. */
  lemma {:induction false} TraversePointwise<A, B, E>(f: A -> Result<B, E>, xs: seq<A>)
    ensures Traverse(f, xs).Ok? <==> forall i :: 0 <= i < |xs| ==> f(xs[i]).Ok?
    ensures Traverse(f, xs).Ok? ==> |Traverse(f, xs).value| == |xs|
    ensures Traverse(f, xs).Ok? ==>
              forall i :: 0 <= i < |xs| ==> f(xs[i]) == Ok(Traverse(f, xs).value[i])
  {
    if |xs| == 0 {
    } else {
      TraversePointwise(f, xs[1..]);
      assert forall i :: 1 <= i < |xs| ==> xs[i] == xs[1..][i - 1];
      if Traverse(f, xs[1..]).Ok? && f(xs[0]).Ok? {
        var v := Traverse(f, xs).value;
        assert v[1..] == Traverse(f, xs[1..]).value;
        forall i | 0 <= i < |xs| ensures f(xs[i]) == Ok(v[i]) {
          if i > 0 {
            assert v[i] == v[1..][i - 1];
          }
        }
      } else if f(xs[0]).Ok? {
        var i :| 0 <= i < |xs[1..]| && f(xs[1..][i]).Err?;
        assert f(xs[i + 1]).Err?;
      }
    }
  }

  /** The error `Traverse` reports is that of the first element that fails. */
  lemma {:induction false} TraverseFirstError<A, B, E>(f: A -> Result<B, E>, xs: seq<A>) returns (k: nat)
    requires Traverse(f, xs).Err?
    ensures k < |xs| && f(xs[k]).Err? && f(xs[k]).error == Traverse(f, xs).error
    ensures forall i :: 0 <= i < k ==> f(xs[i]).Ok?
  {
    if f(xs[0]).Err? {
      k := 0;
    } else {
      var j := TraverseFirstError(f, xs[1..]);
      k := j + 1;
      forall i | 0 <= i < k ensures f(xs[i]).Ok? {
        if i > 0 {
          assert xs[i] == xs[1..][i - 1];
        }
      }
    }
  }

  // --------------------------------------------------------------- Filter

  function Filter<A>(keep: A -> bool, xs: seq<A>): seq<A> {
    if |xs| == 0 then []
    else (if keep(xs[0]) then [xs[0]] else []) + Filter(keep, xs[1..])
  }

  lemma {:induction false} FilterAppend<A>(keep: A -> bool, xs: seq<A>, ys: seq<A>)
    ensures Filter(keep, xs + ys) == Filter(keep, xs) + Filter(keep, ys)
  {
    if |xs| == 0 {
      assert xs + ys == ys;
    } else {
      var head := if keep(xs[0]) then [xs[0]] else [];
      assert (xs + ys)[0] == xs[0] && (xs + ys)[1..] == xs[1..] + ys;
      FilterAppend(keep, xs[1..], ys);
      assert head + (Filter(keep, xs[1..]) + Filter(keep, ys)) == (head + Filter(keep, xs[1..])) + Filter(keep, ys);
    }
  }

  lemma {:induction false} FilterIdempotent<A>(keep: A -> bool, xs: seq<A>)
    ensures forall x :: x in Filter(keep, xs) <==> x in xs && keep(x)
    ensures Filter(keep, Filter(keep, xs)) == Filter(keep, xs)
  {
    if |xs| == 0 {
    } else {
      FilterIdempotent(keep, xs[1..]);
      assert xs == [xs[0]] + xs[1..];
      if keep(xs[0]) {
        assert Filter(keep, xs)[1..] == Filter(keep, xs[1..]);
      } else {
        assert Filter(keep, xs) == Filter(keep, xs[1..]);
      }
    }
  }

  // -------------------------------------------------------------- FlatMap

  function FlatMap<A, B>(f: A -> seq<B>, xs: seq<A>): seq<B> {
    if |xs| == 0 then [] else f(xs[0]) + FlatMap(f, xs[1..])
  }

  lemma {:induction false} FlatMapAppend<A, B>(f: A -> seq<B>, xs: seq<A>, ys: seq<A>)
    ensures FlatMap(f, xs + ys) == FlatMap(f, xs) + FlatMap(f, ys)
  {
    if |xs| == 0 {
      assert xs + ys == ys;
    } else {
      assert (xs + ys)[1..] == xs[1..] + ys;
      FlatMapAppend(f, xs[1..], ys);
    }
  }

  function Same<B>(): seq<B> -> seq<B> {
    (xs: seq<B>) => xs
  }

  /** The lists one after the other. */
  function Concat<B>(lists: seq<seq<B>>): seq<B> {
    FlatMap(Same(), lists)
  }

  lemma ConcatCons<B>(head: seq<B>, tail: seq<seq<B>>)
    ensures Concat([head] + tail) == head + Concat(tail)
  {
    assert ([head] + tail)[1..] == tail;
  }

  lemma FlatMapSnoc<A, B>(f: A -> seq<B>, xs: seq<A>, x: A)
    ensures FlatMap(f, xs + [x]) == FlatMap(f, xs) + f(x)
  {
    FlatMapAppend(f, xs, [x]);
    assert FlatMap(f, [x]) == f(x) + FlatMap(f, []);
  }

  lemma {:induction false} FlatMapMembers<A, B>(f: A -> seq<B>, xs: seq<A>)
    ensures forall b :: b in FlatMap(f, xs) <==> exists i :: 0 <= i < |xs| && b in f(xs[i])
  {
    if |xs| == 0 {
    } else {
      FlatMapMembers(f, xs[1..]);
      forall b
        ensures b in FlatMap(f, xs) <==> exists i :: 0 <= i < |xs| && b in f(xs[i])
      {
        if b in FlatMap(f, xs[1..]) {
          var i :| 0 <= i < |xs[1..]| && b in f(xs[1..][i]);
          assert b in f(xs[i + 1]);
        }
        if i :| 0 <= i < |xs| && b in f(xs[i]) && i > 0 {
          assert xs[i] == xs[1..][i - 1];
        }
      }
    }
  }

  // --------------------------------------------------------- Permutations

  /** Taking one occurrence of an element out of a list. */
  lemma RemoveOne<A>(x: A, xs: seq<A>, ys: seq<A>) returns (j: nat)
    requires multiset([x] + xs) == multiset(ys)
    ensures j < |ys| && ys[j] == x
    ensures ys == ys[..j] + [x] + ys[j + 1..]
    ensures multiset(xs) == multiset(ys[..j] + ys[j + 1..])
  {
    assert x in multiset([x] + xs);
    assert x in ys;
    j :| 0 <= j < |ys| && ys[j] == x;
    assert ys == ys[..j] + [x] + ys[j + 1..];
    assert multiset([x] + xs) == multiset{x} + multiset(xs);
    assert multiset(ys) == multiset(ys[..j]) + multiset{x} + multiset(ys[j + 1..]);
    assert multiset(xs) == multiset(ys) - multiset{x};
  }

  lemma {:induction false} FlatMapPermutation<A, B>(f: A -> seq<B>, xs: seq<A>, ys: seq<A>)
    requires multiset(xs) == multiset(ys)
    ensures multiset(FlatMap(f, xs)) == multiset(FlatMap(f, ys))
  {
    PermutationMembers(xs, ys);
    if |xs| == 0 {
    } else {
      assert xs == [xs[0]] + xs[1..];
      var j := RemoveOne(xs[0], xs[1..], ys);
      FlatMapPermutation(f, xs[1..], ys[..j] + ys[j + 1..]);
      FlatMapAppend(f, ys[..j], ys[j + 1..]);
      FlatMapAppend(f, ys[..j] + [xs[0]], ys[j + 1..]);
      FlatMapSnoc(f, ys[..j], xs[0]);
    }
  }

  lemma PermutationMembers<A>(xs: seq<A>, ys: seq<A>)
    requires multiset(xs) == multiset(ys)
    ensures |xs| == |ys|
    ensures forall x :: x in xs <==> x in ys
  {
    assert |multiset(xs)| == |xs| && |multiset(ys)| == |ys|;
    assert forall x :: x in xs <==> x in multiset(xs);
    assert forall x :: x in ys <==> x in multiset(ys);
  }

  // --------------------------------------------------- Merging a fan-out

  /** Equal results element by element give equal results overall. */
  lemma {:induction false} TraverseCongruence<A, C, B, E>(f: A -> Result<B, E>, xs: seq<A>,
                                                          g: C -> Result<B, E>, ys: seq<C>)
    requires |xs| == |ys| && forall i :: 0 <= i < |xs| ==> f(xs[i]) == g(ys[i])
    ensures Traverse(f, xs) == Traverse(g, ys)
  {
    if |xs| > 0 {
      assert forall i :: 0 <= i < |xs| - 1 ==> xs[1..][i] == xs[i + 1] && ys[1..][i] == ys[i + 1];
      TraverseCongruence(f, xs[1..], g, ys[1..]);
    }
  }

  lemma {:induction false} TraverseIdentity<A, E>(f: A -> Result<A, E>, xs: seq<A>)
    requires forall i :: 0 <= i < |xs| ==> f(xs[i]) == Ok(xs[i])
    ensures Traverse(f, xs) == Ok(xs)
  {
    if |xs| > 0 {
      assert forall i :: 0 <= i < |xs| - 1 ==> xs[1..][i] == xs[i + 1];
      TraverseIdentity(f, xs[1..]);
      assert [xs[0]] + xs[1..] == xs;
    }
  }

  /** What one element adds to a merged component: nothing unless it is selected and succeeds. */
  function Contribution<A, B, C, E>(select: A -> bool, run: A -> Result<B, E>, part: B -> seq<C>): A -> seq<C> {
    a => if !select(a) then [] else match run(a) case Ok(b) => part(b) case Err(_) => []
  }

  lemma {:induction false} MergeByContribution<A, B, C, E>(
    select: A -> bool, run: A -> Result<B, E>, part: B -> seq<C>, xs: seq<A>)
    requires Traverse(run, Filter(select, xs)).Ok?
    ensures FlatMap(part, Traverse(run, Filter(select, xs)).value) == FlatMap(Contribution(select, run, part), xs)
  {
    if |xs| == 0 {
    } else if select(xs[0]) {
      assert Filter(select, xs)[1..] == Filter(select, xs[1..]);
      var rs := Traverse(run, Filter(select, xs)).value;
      assert rs[1..] == Traverse(run, Filter(select, xs[1..])).value;
      MergeByContribution(select, run, part, xs[1..]);
    } else {
      assert Filter(select, xs) == Filter(select, xs[1..]);
      MergeByContribution(select, run, part, xs[1..]);
    }
  }

  /** A fan-out succeeds exactly when every selected element does. */
  lemma {:induction false} FanOutOk<A, B, E>(select: A -> bool, run: A -> Result<B, E>, xs: seq<A>)
    ensures Traverse(run, Filter(select, xs)).Ok? <==> forall x :: x in xs && select(x) ==> run(x).Ok?
  {
    if |xs| == 0 {
    } else {
      FanOutOk(select, run, xs[1..]);
      assert xs == [xs[0]] + xs[1..];
      if select(xs[0]) {
        assert Filter(select, xs)[1..] == Filter(select, xs[1..]);
      } else {
        assert Filter(select, xs) == Filter(select, xs[1..]);
      }
    }
  }

  /** A fan-out that succeeds does so in every order, and each merged component keeps its elements. */
  lemma MergeAnyOrder<A, B, C, E>(select: A -> bool, run: A -> Result<B, E>, part: B -> seq<C>,
                                  xs: seq<A>, ys: seq<A>)
    requires multiset(xs) == multiset(ys) && Traverse(run, Filter(select, xs)).Ok?
    ensures Traverse(run, Filter(select, ys)).Ok?
    ensures multiset(FlatMap(part, Traverse(run, Filter(select, ys)).value)) ==
            multiset(FlatMap(part, Traverse(run, Filter(select, xs)).value))
  {
    PermutationMembers(xs, ys);
    FanOutOk(select, run, xs);
    FanOutOk(select, run, ys);
    MergeByContribution(select, run, part, xs);
    MergeByContribution(select, run, part, ys);
    FlatMapPermutation(Contribution(select, run, part), xs, ys);
  }

  /** One turn of a fan-out loop that has reached position i. */
  lemma FanOutStep<A, B, E>(select: A -> bool, run: A -> Result<B, E>, xs: seq<A>, i: nat, front: seq<B>)
    requires i < |xs|
    ensures !select(xs[i]) ==> Filter(select, xs[i..]) == Filter(select, xs[i + 1..])
    ensures select(xs[i]) && run(xs[i]).Err? ==> Traverse(run, Filter(select, xs[i..])) == Err(run(xs[i]).error)
    ensures select(xs[i]) && run(xs[i]).Ok? ==>
              Resume(front, Traverse(run, Filter(select, xs[i..]))) ==
              Resume(front + [run(xs[i]).value], Traverse(run, Filter(select, xs[i + 1..])))
  {
    var rest := Filter(select, xs[i + 1..]);
    assert xs[i..][1..] == xs[i + 1..];
    if select(xs[i]) {
      assert Filter(select, xs[i..])[1..] == rest;
      if run(xs[i]).Ok? && Traverse(run, rest).Ok? {
        var r, back := run(xs[i]).value, Traverse(run, rest).value;
        assert front + ([r] + back) == (front + [r]) + back;
      }
    } else {
      assert Filter(select, xs[i..]) == rest;
    }
  }

  // -------------------------------------------------- Selection by position

  /** Positions below n, in order. */
  ghost predicate Increasing(picks: seq<nat>, n: nat) {
    && (forall i, j :: 0 <= i < j < |picks| ==> picks[i] < picks[j])
    && (forall i :: 0 <= i < |picks| ==> picks[i] < n)
  }

  /** The positions of the selected elements. */
  ghost predicate Selects<A(!new)>(select: A -> bool, xs: seq<A>, picks: seq<nat>) {
    Increasing(picks, |xs|) && forall k: nat :: k < |xs| ==> (k in picks <==> select(xs[k]))
  }

  /** The elements at the given positions. */
  function At<A>(xs: seq<A>, picks: seq<nat>): (ys: seq<A>)
    requires forall i :: 0 <= i < |picks| ==> picks[i] < |xs|
    ensures |ys| == |picks|
    ensures forall i :: 0 <= i < |picks| ==> ys[i] == xs[picks[i]]
  {
    seq(|picks|, i requires 0 <= i < |picks| => xs[picks[i]])
  }

  /** The positions, from the front. */
  function Picks<A>(select: A -> bool, xs: seq<A>): (picks: seq<nat>)
    ensures forall i :: 0 <= i < |picks| ==> picks[i] < |xs|
  {
    if |xs| == 0 then []
    else Picks(select, xs[..|xs| - 1]) + if select(xs[|xs| - 1]) then [|xs| - 1] else []
  }

  lemma {:induction false} PicksSelect<A(!new)>(select: A -> bool, xs: seq<A>)
    ensures Selects(select, xs, Picks(select, xs))
  {
    if |xs| > 0 {
      var init := xs[..|xs| - 1];
      PicksSelect(select, init);
      forall k: nat | k < |xs| ensures k in Picks(select, xs) <==> select(xs[k]) {
        if k < |init| {
          assert init[k] == xs[k];
        }
      }
    }
  }

  lemma {:induction false} PicksFilter<A>(select: A -> bool, xs: seq<A>)
    ensures Filter(select, xs) == At(xs, Picks(select, xs))
  {
    if |xs| > 0 {
      var init, last := xs[..|xs| - 1], xs[|xs| - 1];
      PicksFilter(select, init);
      FilterLast(select, init, last);
      assert xs == init + [last];
      assert At(xs, Picks(select, init)) == At(init, Picks(select, init));
    }
  }

  lemma EmptyOrNot(q: seq<nat>)
    ensures q == [] || exists k: nat :: k in q
  {
    if |q| > 0 {
      assert q[0] in q;
    }
  }

  lemma AllButLast(picks: seq<nat>, n: nat)
    requires Increasing(picks, n) && |picks| > 0
    ensures Increasing(picks[..|picks| - 1], picks[|picks| - 1])
    ensures forall k: nat :: k in picks[..|picks| - 1] <==> k in picks && k != picks[|picks| - 1]
  {
    var front, last := picks[..|picks| - 1], picks[|picks| - 1];
    assert picks == front + [last];
    assert forall i :: 0 <= i < |front| ==> front[i] < last;
  }

  lemma LastIsGreatest(picks: seq<nat>, n: nat)
    requires Increasing(picks, n) && |picks| > 0
    ensures picks[|picks| - 1] in picks && forall k: nat :: k in picks ==> k <= picks[|picks| - 1]
  {
  }

  /** Increasing positions are determined by which they are. */
  lemma {:induction false} SamePicks(p: seq<nat>, q: seq<nat>, n: nat)
    requires Increasing(p, n) && Increasing(q, n) && forall k: nat :: k in p <==> k in q
    ensures p == q
  {
    EmptyOrNot(p);
    EmptyOrNot(q);
    if |p| > 0 && |q| > 0 {
      var p', q', m := p[..|p| - 1], q[..|q| - 1], p[|p| - 1];
      LastIsGreatest(p, n);
      LastIsGreatest(q, n);
      AllButLast(p, n);
      AllButLast(q, n);
      assert q[|q| - 1] == m;
      forall k: nat ensures k in p' <==> k in q' {
        assert k in p <==> k in q;
      }
      SamePicks(p', q', m);
      assert p == p' + [m] && q == q' + [m];
    }
  }

  lemma PicksExist<A(!new)>(select: A -> bool, xs: seq<A>) returns (picks: seq<nat>)
    ensures Selects(select, xs, picks)
  {
    picks := Picks(select, xs);
    PicksSelect(select, xs);
  }

  /** `Filter` keeps the elements at those positions. */
  lemma SelectsIsFilter<A(!new)>(select: A -> bool, xs: seq<A>, picks: seq<nat>)
    requires Selects(select, xs, picks)
    ensures Filter(select, xs) == At(xs, picks)
  {
    PicksSelect(select, xs);
    PicksFilter(select, xs);
    var all := Picks(select, xs);
    forall k: nat ensures k in picks <==> k in all {
      if k in picks {
        assert k < |xs|;
      }
    }
    SamePicks(picks, all, |xs|);
  }

  lemma FilterLast<A>(keep: A -> bool, init: seq<A>, last: A)
    ensures Filter(keep, init + [last]) == Filter(keep, init) + if keep(last) then [last] else []
  {
    FilterAppend(keep, init, [last]);
    FilterOne(keep, last);
  }

  lemma FilterOne<A>(keep: A -> bool, x: A)
    ensures Filter(keep, [x]) == if keep(x) then [x] else []
  {
    assert [x][1..] == [];
  }

  /** A fan-out position by position: its answers, or the error of the first position that fails. */
  lemma FanOutByIndex<A(!new), B, E>(select: A -> bool, run: A -> Result<B, E>, xs: seq<A>, picks: seq<nat>)
    requires Selects(select, xs, picks)
    ensures var r := Traverse(run, Filter(select, xs));
            match r
            case Ok(bs) => |bs| == |picks| && forall n :: 0 <= n < |picks| ==> run(xs[picks[n]]) == Ok(bs[n])
            case Err(e) => exists n :: 0 <= n < |picks| && run(xs[picks[n]]) == Err(e) &&
                                       forall m :: 0 <= m < n ==> run(xs[picks[m]]).Ok?
  {
    var ys := Filter(select, xs);
    SelectsIsFilter(select, xs, picks);
    if Traverse(run, ys).Ok? {
      TraversePointwise(run, ys);
    } else {
      var n := TraverseFirstError(run, ys);
      assert run(xs[picks[n]]) == Err(Traverse(run, ys).error);
    }
  }

  /** What a flat map concatenates. */
  lemma {:induction false} FlatMapIsConcat<A, B>(f: A -> seq<B>, xs: seq<A>, lists: seq<seq<B>>)
    requires |lists| == |xs| && forall i :: 0 <= i < |xs| ==> lists[i] == f(xs[i])
    ensures FlatMap(f, xs) == Concat(lists)
  {
    if |xs| > 0 {
      FlatMapIsConcat(f, xs[1..], lists[1..]);
    }
  }

  // ----------------------------------------------------------- Duplicates

  ghost predicate NoDuplicates<A>(xs: seq<A>) {
    forall i, j :: 0 <= i < j < |xs| ==> xs[i] != xs[j]
  }

  /** A list is duplicate-free exactly when no element counts twice in its multiset. */
  lemma {:induction false} NoDuplicatesByCount<A>(xs: seq<A>)
    ensures NoDuplicates(xs) <==> forall x :: multiset(xs)[x] <= 1
  {
    if |xs| == 0 {
    } else {
      var init, last := xs[..|xs| - 1], xs[|xs| - 1];
      assert xs == init + [last];
      NoDuplicatesByCount(init);
      assert multiset(xs) == multiset(init) + multiset{last};
      if NoDuplicates(xs) {
        assert NoDuplicates(init) by {
          forall i, j | 0 <= i < j < |init| ensures init[i] != init[j] {
            assert xs[i] != xs[j];
          }
        }
        assert forall i :: 0 <= i < |init| ==> xs[i] == init[i] && xs[i] != xs[|xs| - 1];
        assert last !in multiset(init);
      } else {
        var i, j :| 0 <= i < j < |xs| && xs[i] == xs[j];
        if j == |xs| - 1 {
          assert init[i] == last;
          assert last in multiset(init);
          assert multiset(xs)[last] >= 2;
        } else {
          assert init[i] == init[j];
          assert !NoDuplicates(init);
          var x :| multiset(init)[x] > 1;
          assert multiset(xs)[x] > 1;
        }
      }
    }
  }

  lemma NoDuplicatesSnoc<A>(xs: seq<A>, x: A)
    requires NoDuplicates(xs) && x !in xs
    ensures NoDuplicates(xs + [x])
  {
  }

  lemma NoDuplicatesPermutation<A>(xs: seq<A>, ys: seq<A>)
    requires multiset(xs) == multiset(ys)
    ensures NoDuplicates(xs) <==> NoDuplicates(ys)
  {
    NoDuplicatesByCount(xs);
    NoDuplicatesByCount(ys);
  }

  /** The elements of `xs`, each kept where it occurs first. */
  function FirstOccurrences<A(==)>(xs: seq<A>): (r: seq<A>)
    ensures forall i :: 0 <= i < |r| ==> r[i] in xs
  {
    if |xs| == 0 then []
    else
      var front := FirstOccurrences(xs[..|xs| - 1]);
      var last := xs[|xs| - 1];
      if last in front then front else front + [last]
  }

  /** The index of the first occurrence of a member. */
  function FirstIndex<A(==)>(xs: seq<A>, x: A): (i: nat)
    requires x in xs
    ensures i < |xs| && xs[i] == x && x !in xs[..i]
  {
    if xs[0] == x then 0
    else
      assert xs == [xs[0]] + xs[1..];
      var i := FirstIndex(xs[1..], x) + 1;
      assert xs[..i] == [xs[0]] + xs[1..][..i - 1];
      i
  }

  lemma FirstIndexUnique<A>(xs: seq<A>, i: nat)
    requires i < |xs| && xs[i] !in xs[..i]
    ensures FirstIndex(xs, xs[i]) == i
  {
    var j := FirstIndex(xs, xs[i]);
    assert forall k :: 0 <= k < i ==> xs[k] == xs[..i][k];
    assert forall k :: 0 <= k < j ==> xs[k] == xs[..j][k];
  }

  /** Same elements, no duplicates, in the order of first occurrence. */
  lemma {:induction false} FirstOccurrencesSpec<A>(xs: seq<A>)
    ensures forall x :: x in FirstOccurrences(xs) <==> x in xs
    ensures NoDuplicates(FirstOccurrences(xs))
    ensures forall i, j :: 0 <= i < j < |FirstOccurrences(xs)| ==>
              FirstOccurrences(xs)[i] in xs && FirstOccurrences(xs)[j] in xs &&
              FirstIndex(xs, FirstOccurrences(xs)[i]) < FirstIndex(xs, FirstOccurrences(xs)[j])
  {
    if |xs| == 0 {
    } else {
      var init, last := xs[..|xs| - 1], xs[|xs| - 1];
      FirstOccurrencesSpec(init);
      var front := FirstOccurrences(init);
      assert xs == init + [last];
      var r := FirstOccurrences(xs);
      forall x | x in init ensures x in xs && FirstIndex(xs, x) == FirstIndex(init, x) {
        var k := FirstIndex(init, x);
        assert xs[k] == init[k] && xs[..k] == init[..k];
        FirstIndexUnique(xs, k);
      }
      if last !in init {
        assert xs[..|xs| - 1] == init;
        FirstIndexUnique(xs, |xs| - 1);
      }
      assert r == if last in init then front else front + [last];
      forall i, j | 0 <= i < j < |r|
        ensures r[i] in xs && r[j] in xs && r[i] != r[j]
        ensures FirstIndex(xs, r[i]) < FirstIndex(xs, r[j])
      {
        assert r[i] == front[i] && front[i] in init;
        if j < |front| {
          assert r[j] == front[j] && front[j] in init;
        }
      }
    }
  }

  // ------------------------------------------------------------ Arm tables

  /** One generated `if` arm: the key it tests for and the body it guards. */
  datatype Arm<+K, +V> = Arm(key: K, body: V)

  /** The keys of a table of arms, in declaration order: what a handler's config lists. */
  function Keys<K, V>(arms: seq<Arm<K, V>>): (keys: seq<K>)
    ensures |keys| == |arms|
    ensures forall i :: 0 <= i < |arms| ==> keys[i] == arms[i].key
  {
    seq(|arms|, i requires 0 <= i < |arms| => arms[i].key)
  }

  /** The chain of generated `if`s: the body of the first arm whose key matches. */
  function Lookup<K(==), V>(arms: seq<Arm<K, V>>, key: K): Option<V> {
    if |arms| == 0 then None
    else if arms[0].key == key then Some(arms[0].body)
    else Lookup(arms[1..], key)
  }

  /** A key of the config finds the first arm declared for it; any other key finds nothing. */
  lemma {:induction false} LookupFirst<K, V>(arms: seq<Arm<K, V>>, key: K)
    ensures Lookup(arms, key).Some? <==> key in Keys(arms)
    ensures key in Keys(arms) ==>
              Lookup(arms, key) == Some(arms[FirstIndex(Keys(arms), key)].body)
  {
    if |arms| == 0 {
    } else {
      LookupFirst(arms[1..], key);
      var keys, rest := Keys(arms), Keys(arms[1..]);
      assert keys[0] == arms[0].key && keys[1..] == rest;
      assert keys == [keys[0]] + rest;
      if key != keys[0] && key in rest {
        assert FirstIndex(keys, key) == FirstIndex(rest, key) + 1;
      }
    }
  }
}
