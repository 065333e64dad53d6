/** The traversal shapes the checks are built from: "the first element that
    matches" (a `for` loop with `break`), "the issues of every element, in
    order" (a `for` loop that appends), and the same with an exception that
    stops the loop. */
module Scans {
  import opened Wrappers
  import opened Issues

  /** The position of the first element satisfying `p`, if any. */
  function FirstIndex<T>(xs: seq<T>, p: T -> bool): (r: Option<nat>)
    ensures r.Some? ==> r.value < |xs| && p(xs[r.value])
    ensures r.Some? ==> forall j | 0 <= j < r.value :: !p(xs[j])
    ensures r.None? <==> forall j | 0 <= j < |xs| :: !p(xs[j])
    decreases |xs|
  {
    if xs == [] then None
    else if p(xs[0]) then Some(0)
    else
      match FirstIndex(xs[1..], p)
      case None => None
      case Some(k) => Some(k + 1)
  }

  /** A loop that stops at the first match finds what `FirstIndex` names. */
  lemma FirstIndexAt<T>(xs: seq<T>, p: T -> bool, i: nat)
    requires i < |xs| && p(xs[i])
    requires forall j | 0 <= j < i :: !p(xs[j])
    ensures FirstIndex(xs, p) == Some(i)
  {
  }

  /** A loop's "found" flag after element `k`. */
  lemma FirstIndexPrefixStep<T>(xs: seq<T>, p: T -> bool, k: nat)
    requires k < |xs|
    ensures FirstIndex(xs[..k + 1], p).Some? <==> FirstIndex(xs[..k], p).Some? || p(xs[k])
  {
    assert xs[..k + 1] == xs[..k] + [xs[k]];
    FirstIndexSnoc(xs[..k], p, xs[k]);
  }

  /** Extending a sequence by one element finds a match exactly when the
      sequence had one or the new element matches. */
  lemma FirstIndexSnoc<T>(xs: seq<T>, p: T -> bool, x: T)
    ensures FirstIndex(xs + [x], p).Some? <==> FirstIndex(xs, p).Some? || p(x)
  {
    var ys := xs + [x];
    assert forall j | 0 <= j < |xs| :: ys[j] == xs[j];
    assert ys[|xs|] == x;
  }

  /** The outputs of `f` on the elements of `xs`, concatenated in order. */
  function ConcatMap<T, U>(f: T -> seq<U>, xs: seq<T>): seq<U>
    decreases |xs|
  {
    if xs == [] then [] else ConcatMap(f, xs[..|xs| - 1]) + f(xs[|xs| - 1])
  }

  lemma ConcatMapSnoc<T, U>(f: T -> seq<U>, xs: seq<T>, x: T)
    ensures ConcatMap(f, xs + [x]) == ConcatMap(f, xs) + f(x)
  {
    assert (xs + [x])[..|xs|] == xs;
  }

  lemma ConcatMapAt<T, U>(f: T -> seq<U>, xs: seq<T>, k: nat)
    requires k < |xs|
    ensures ConcatMap(f, xs[..k + 1]) == ConcatMap(f, xs[..k]) + f(xs[k])
  {
    assert xs[..k + 1][..k] == xs[..k];
  }

  lemma AppendAssoc<U>(a: seq<U>, b: seq<U>, c: seq<U>)
    ensures (a + b) + c == a + (b + c)
  {
  }

  /** Running `b` after `a`, on a list that held `base` before `a`. */
  lemma ThenStep(a: Checked, b: Checked, base: seq<Issue>, before: seq<Issue>, after: seq<Issue>, fault: Option<Fault>)
    requires before == base + a.issues && a.crash.None?
    requires after == before + b.issues && fault == b.crash
    ensures after == base + Then(a, b).issues && fault == Then(a, b).crash
  {
    AppendAssoc(base, a.issues, b.issues);
  }

  /** Once `a` has raised, nothing after it runs. */
  lemma ThenStops(a: Checked, b: Checked)
    requires a.crash.Some?
    ensures Then(a, b) == a
  {
  }

  /** One step of a loop that appends the outputs of `f` to a list that held
      `base` before the loop. */
  lemma ConcatMapStep<T, U>(f: T -> seq<U>, xs: seq<T>, k: nat, base: seq<U>, before: seq<U>, after: seq<U>)
    requires k < |xs|
    requires before == base + ConcatMap(f, xs[..k])
    requires after == before + f(xs[k])
    ensures after == base + ConcatMap(f, xs[..k + 1])
  {
    ConcatMapAt(f, xs, k);
    AppendAssoc(base, ConcatMap(f, xs[..k]), f(xs[k]));
  }

  /** Something is in the concatenation exactly when one element's output has it. */
  lemma {:induction false} ConcatMapMember<T, U>(f: T -> seq<U>, xs: seq<T>, x: U)
    ensures x in ConcatMap(f, xs) <==> exists i | 0 <= i < |xs| :: x in f(xs[i])
    decreases |xs|
  {
    if xs != [] {
      var init := xs[..|xs| - 1];
      ConcatMapMember(f, init, x);
      if x in ConcatMap(f, init) {
        var i :| 0 <= i < |init| && x in f(init[i]);
        assert xs[i] == init[i];
      }
      if exists i | 0 <= i < |xs| :: x in f(xs[i]) {
        var i :| 0 <= i < |xs| && x in f(xs[i]);
        if i < |init| {
          assert xs[i] == init[i];
        }
      }
    }
  }

  /** Concatenates `f(x, seen)` over `xs`, where `seen` says whether some
      element before `x` satisfies `p`: a loop over `xs` with a latch. */
  function LatchConcat<T, U>(f: (T, bool) -> seq<U>, p: T -> bool, xs: seq<T>): seq<U>
    decreases |xs|
  {
    if xs == [] then []
    else
      var init := xs[..|xs| - 1];
      LatchConcat(f, p, init) + f(xs[|xs| - 1], FirstIndex(init, p).Some?)
  }

  /** What one element's output has is in the latched concatenation. */
  lemma {:induction false} LatchConcatIn<T, U>(f: (T, bool) -> seq<U>, p: T -> bool, xs: seq<T>, i: nat, x: U)
    requires i < |xs| && x in f(xs[i], FirstIndex(xs[..i], p).Some?)
    ensures x in LatchConcat(f, p, xs)
    decreases |xs|
  {
    var n := |xs| - 1;
    if i < n {
      PrefixAgrees(xs, n, i);
      LatchConcatIn(f, p, xs[..n], i, x);
    }
  }

  /** What the latched concatenation has comes from one element's output. */
  lemma {:induction false} LatchConcatFrom<T, U>(f: (T, bool) -> seq<U>, p: T -> bool, xs: seq<T>, x: U)
    requires x in LatchConcat(f, p, xs)
    ensures exists i | 0 <= i < |xs| :: x in f(xs[i], FirstIndex(xs[..i], p).Some?)
    decreases |xs|
  {
    var n := |xs| - 1;
    var init := xs[..n];
    if x in LatchConcat(f, p, init) {
      LatchConcatFrom(f, p, init, x);
      var i :| 0 <= i < |init| && x in f(init[i], FirstIndex(init[..i], p).Some?);
      PrefixAgrees(xs, n, i);
    } else {
      assert x in f(xs[n], FirstIndex(xs[..n], p).Some?);
    }
  }

  /** Something is in the latched concatenation exactly when one element's
      output, given the latch before it, has it. */
  lemma LatchConcatMember<T, U>(f: (T, bool) -> seq<U>, p: T -> bool, xs: seq<T>, x: U)
    ensures x in LatchConcat(f, p, xs) <==>
      exists i | 0 <= i < |xs| :: x in f(xs[i], FirstIndex(xs[..i], p).Some?)
  {
    if x in LatchConcat(f, p, xs) {
      LatchConcatFrom(f, p, xs, x);
    } else if exists i | 0 <= i < |xs| :: x in f(xs[i], FirstIndex(xs[..i], p).Some?) {
      var i :| 0 <= i < |xs| && x in f(xs[i], FirstIndex(xs[..i], p).Some?);
      LatchConcatIn(f, p, xs, i, x);
    }
  }

  /** Runs `f(x, seen)` over `xs` in order, stopping at the first exception,
      where `seen` says whether some element before `x` satisfies `p`. */
  function LatchThen<T>(f: (T, bool) -> Checked, p: T -> bool, xs: seq<T>): Checked
    decreases |xs|
  {
    if xs == [] then Pass([])
    else
      var init := xs[..|xs| - 1];
      Then(LatchThen(f, p, init), f(xs[|xs| - 1], FirstIndex(init, p).Some?))
  }

  /** Element `i` of `xs` is element `i` of any longer prefix, with the same latch. */
  lemma PrefixAgrees<T>(xs: seq<T>, n: nat, i: nat)
    requires i < n <= |xs|
    ensures xs[..n][i] == xs[i] && xs[..n][..i] == xs[..i]
  {
  }

  /** One more element extends the latched run by that element's step. */
  lemma LatchThenAt<T>(f: (T, bool) -> Checked, p: T -> bool, xs: seq<T>, i: nat)
    requires i < |xs|
    ensures LatchThen(f, p, xs[..i + 1]) == Then(LatchThen(f, p, xs[..i]), f(xs[i], FirstIndex(xs[..i], p).Some?))
  {
    assert xs[..i + 1][..i] == xs[..i];
  }

  /** A step that raises makes the whole latched run raise. */
  lemma {:induction false} LatchThenRaises<T>(f: (T, bool) -> Checked, p: T -> bool, xs: seq<T>, i: nat)
    requires i < |xs| && f(xs[i], FirstIndex(xs[..i], p).Some?).crash.Some?
    ensures LatchThen(f, p, xs).crash.Some?
    decreases |xs|
  {
    var n := |xs| - 1;
    if i < n {
      PrefixAgrees(xs, n, i);
      LatchThenRaises(f, p, xs[..n], i);
    }
  }

  /** Before the first match, no prefix has a match. */
  lemma FirstIndexBefore<T>(xs: seq<T>, p: T -> bool, k: nat)
    requires FirstIndex(xs, p) == Some(k)
    ensures FirstIndex(xs[..k], p).None?
  {
    assert forall j | 0 <= j < k :: xs[..k][j] == xs[j];
  }

  /** The only element that matches while no earlier one does is the first match. */
  lemma FirstIndexUnique<T>(xs: seq<T>, p: T -> bool, i: nat, k: nat)
    requires FirstIndex(xs, p) == Some(k)
    requires i < |xs| && p(xs[i]) && FirstIndex(xs[..i], p).None?
    ensures i == k
  {
    assert forall j | 0 <= j < i :: xs[..i][j] == xs[j];
    FirstIndexAt(xs, p, i);
  }

  /** A run that does not raise keeps every issue of every step. */
  lemma {:induction false} LatchThenIn<T>(f: (T, bool) -> Checked, p: T -> bool, xs: seq<T>, i: nat, x: Issue)
    requires LatchThen(f, p, xs).crash.None?
    requires i < |xs| && x in f(xs[i], FirstIndex(xs[..i], p).Some?).issues
    ensures x in LatchThen(f, p, xs).issues
    decreases |xs|
  {
    var n := |xs| - 1;
    if i < n {
      PrefixAgrees(xs, n, i);
      LatchThenIn(f, p, xs[..n], i, x);
    }
  }

  /** When the latched run raises, it raises what one element's step raises. */
  lemma {:induction false} LatchThenCrashFrom<T>(f: (T, bool) -> Checked, p: T -> bool, xs: seq<T>)
    requires LatchThen(f, p, xs).crash.Some?
    ensures exists i | 0 <= i < |xs| :: LatchThen(f, p, xs).crash == f(xs[i], FirstIndex(xs[..i], p).Some?).crash
    decreases |xs|
  {
    var n := |xs| - 1;
    var init := xs[..n];
    if LatchThen(f, p, init).crash.Some? {
      LatchThenCrashFrom(f, p, init);
      var i :| 0 <= i < |init| && LatchThen(f, p, init).crash == f(init[i], FirstIndex(init[..i], p).Some?).crash;
      PrefixAgrees(xs, n, i);
    } else {
      assert LatchThen(f, p, xs).crash == f(xs[n], FirstIndex(xs[..n], p).Some?).crash;
    }
  }

  /** The latched run raises exactly when one element's step raises. */
  lemma LatchThenCrash<T>(f: (T, bool) -> Checked, p: T -> bool, xs: seq<T>)
    ensures LatchThen(f, p, xs).crash.Some? <==>
      exists i | 0 <= i < |xs| :: f(xs[i], FirstIndex(xs[..i], p).Some?).crash.Some?
  {
    if LatchThen(f, p, xs).crash.Some? {
      LatchThenCrashFrom(f, p, xs);
    } else if exists i | 0 <= i < |xs| :: f(xs[i], FirstIndex(xs[..i], p).Some?).crash.Some? {
      var i :| 0 <= i < |xs| && f(xs[i], FirstIndex(xs[..i], p).Some?).crash.Some?;
      LatchThenRaises(f, p, xs, i);
    }
  }

  /** Every issue of the latched run comes from one element's step. */
  lemma {:induction false} LatchThenMember<T>(f: (T, bool) -> Checked, p: T -> bool, xs: seq<T>, x: Issue)
    requires x in LatchThen(f, p, xs).issues
    ensures exists i | 0 <= i < |xs| :: x in f(xs[i], FirstIndex(xs[..i], p).Some?).issues
    decreases |xs|
  {
    var n := |xs| - 1;
    var init := xs[..n];
    if x in LatchThen(f, p, init).issues {
      LatchThenMember(f, p, init, x);
      var i :| 0 <= i < |init| && x in f(init[i], FirstIndex(init[..i], p).Some?).issues;
      PrefixAgrees(xs, n, i);
    } else {
      assert x in f(xs[n], FirstIndex(xs[..n], p).Some?).issues;
    }
  }

  /** A kind of issue that a step can only report while the latch is off, and
      only for an element that sets the latch, is reported at most once; and
      only when some element sets the latch. */
  lemma {:induction false} LatchThenOnce<T>(f: (T, bool) -> Checked, p: T -> bool, xs: seq<T>, q: Issue -> bool)
    requires forall i | 0 <= i < |xs| :: |f(xs[i], FirstIndex(xs[..i], p).Some?).issues| <= 1
    requires forall i, y | 0 <= i < |xs| && y in f(xs[i], FirstIndex(xs[..i], p).Some?).issues && q(y) ::
      FirstIndex(xs[..i], p).None? && p(xs[i])
    ensures forall a, b | 0 <= a < b < |LatchThen(f, p, xs).issues| ::
      !(q(LatchThen(f, p, xs).issues[a]) && q(LatchThen(f, p, xs).issues[b]))
    ensures (exists a | 0 <= a < |LatchThen(f, p, xs).issues| :: q(LatchThen(f, p, xs).issues[a])) ==>
      FirstIndex(xs, p).Some?
    decreases |xs|
  {
    if xs != [] {
      var n := |xs| - 1;
      var init := xs[..n];
      forall i | 0 <= i < |init|
        ensures init[i] == xs[i] && init[..i] == xs[..i]
      {
        PrefixAgrees(xs, n, i);
      }
      LatchThenOnce(f, p, init, q);
      assert xs == init + [xs[n]];
      FirstIndexSnoc(init, p, xs[n]);
      var a := LatchThen(f, p, init);
      var r := f(xs[n], FirstIndex(init, p).Some?).issues;
      if a.crash.None? {
        assert LatchThen(f, p, xs).issues == a.issues + r;
        if exists k | 0 <= k < |r| :: q(r[k]) {
          var k :| 0 <= k < |r| && q(r[k]);
          assert r[k] in r;
        }
      }
    }
  }

  /** Concatenating the issues of one check gives issues of that check. */
  lemma {:induction false} ConcatMapFrom<T>(f: T -> seq<Issue>, xs: seq<T>, c: Check)
    requires forall y :: AllFrom(f(y), c)
    ensures AllFrom(ConcatMap(f, xs), c)
    decreases |xs|
  {
    if xs != [] {
      ConcatMapFrom(f, xs[..|xs| - 1], c);
      assert AllFrom(f(xs[|xs| - 1]), c);
    }
  }

  /** The per-element results of `f` in order, stopping at the first exception. */
  function Collect<T>(f: T -> Checked, xs: seq<T>): Checked
    decreases |xs|
  {
    if xs == [] then Pass([]) else Then(Collect(f, xs[..|xs| - 1]), f(xs[|xs| - 1]))
  }

  lemma CollectSnoc<T>(f: T -> Checked, xs: seq<T>, x: T)
    ensures Collect(f, xs + [x]) == Then(Collect(f, xs), f(x))
  {
    assert (xs + [x])[..|xs|] == xs;
  }

  lemma CollectAt<T>(f: T -> Checked, xs: seq<T>, k: nat)
    requires k < |xs|
    ensures Collect(f, xs[..k + 1]) == Then(Collect(f, xs[..k]), f(xs[k]))
  {
    assert xs[..k + 1][..k] == xs[..k];
  }

  /** One step of a loop that appends the issues of `f` to a list that held
      `base` before the loop, and stops at the first exception. */
  lemma CollectStep<T>(f: T -> Checked, xs: seq<T>, k: nat, base: seq<Issue>, before: seq<Issue>, after: seq<Issue>, fault: Option<Fault>)
    requires k < |xs|
    requires before == base + Collect(f, xs[..k]).issues && Collect(f, xs[..k]).crash.None?
    requires after == before + f(xs[k]).issues && fault == f(xs[k]).crash
    ensures fault.None? ==> after == base + Collect(f, xs[..k + 1]).issues && Collect(f, xs[..k + 1]).crash.None?
    ensures fault.Some? ==> after == base + Collect(f, xs).issues && fault == Collect(f, xs).crash
  {
    CollectAt(f, xs, k);
    AppendAssoc(base, Collect(f, xs[..k]).issues, f(xs[k]).issues);
    if fault.Some? {
      CollectStops(f, xs, k + 1);
    }
  }

  /** Once the loop has raised on a prefix, the rest of the elements change nothing. */
  lemma {:induction false} CollectStops<T>(f: T -> Checked, xs: seq<T>, k: nat)
    requires k <= |xs|
    requires Collect(f, xs[..k]).crash.Some?
    ensures Collect(f, xs) == Collect(f, xs[..k])
    decreases |xs|
  {
    if |xs| > k {
      var init := xs[..|xs| - 1];
      assert init[..k] == xs[..k];
      CollectStops(f, init, k);
    } else {
      assert xs[..k] == xs;
    }
  }

  /** The loop raises exactly when some element raises. */
  lemma {:induction false} CollectCrashIff<T>(f: T -> Checked, xs: seq<T>)
    ensures Collect(f, xs).crash.Some? <==> exists i | 0 <= i < |xs| :: f(xs[i]).crash.Some?
    decreases |xs|
  {
    if xs != [] {
      var init := xs[..|xs| - 1];
      CollectCrashIff(f, init);
      if exists i | 0 <= i < |init| :: f(init[i]).crash.Some? {
        var i :| 0 <= i < |init| && f(init[i]).crash.Some?;
        assert xs[i] == init[i];
      }
      if exists i | 0 <= i < |xs| :: f(xs[i]).crash.Some? {
        var i :| 0 <= i < |xs| && f(xs[i]).crash.Some?;
        if i < |init| {
          assert xs[i] == init[i];
        }
      }
    }
  }

  /** Without an exception the loop appends every element's issues. */
  lemma {:induction false} CollectWithoutCrash<T>(f: T -> Checked, xs: seq<T>)
    requires forall i | 0 <= i < |xs| :: f(xs[i]).crash.None?
    ensures Collect(f, xs) == Pass(ConcatMap(y => f(y).issues, xs))
    decreases |xs|
  {
    if xs != [] {
      var init := xs[..|xs| - 1];
      assert forall i | 0 <= i < |init| :: init[i] == xs[i];
      CollectWithoutCrash(f, init);
    }
  }

  lemma {:induction false} CollectFrom<T>(f: T -> Checked, xs: seq<T>, c: Check)
    requires forall y :: AllFrom(f(y).issues, c)
    ensures AllFrom(Collect(f, xs).issues, c)
    decreases |xs|
  {
    if xs != [] {
      CollectFrom(f, xs[..|xs| - 1], c);
      assert AllFrom(f(xs[|xs| - 1]).issues, c);
    }
  }
}
