/**
  The option-application engine of package fnopt.

  A target `*T` is a `Box<T>`. An option `OptFn[T]` changes the target and
  is modelled by the function from the old value to the new one. An option
  `OptFnE[T]` may also report an error; it is modelled by a function whose
  `Outcome` carries the value it left behind in both cases, so that a
  failing option's partial change stays observable.
 */
module FnOpt {
  import opened Wrappers

  /** What a fallible option did: the value it left behind, and its error if it failed. */
  datatype Outcome<T, E> = Ok(value: T) | Fail(value: T, error: E)

  /** The Go pointer `*T` through which options mutate their target. */
  class Box<T> {
    var val: T

    constructor (v: T)
      ensures val == v
    {
      val := v;
    }
  }

  // ---------------------------------------------------------------------
  // Specification: strict left-to-right folds over the option sequence
  // ---------------------------------------------------------------------

  /** The value left after applying every infallible option in order. */
  function Apply<T>(t: T, fns: seq<T -> T>): T
    decreases |fns|
  {
    if fns == [] then t else Apply(fns[0](t), fns[1..])
  }

  /**
    The outcome of applying fallible options in order: each option receives
    the value left by the one before, and the first failure ends the fold,
    carrying the value as the failing option left it.
   */
  function ApplyE<T, E>(t: T, opts: seq<T -> Outcome<T, E>>): Outcome<T, E>
    decreases |opts|
  {
    if opts == [] then Ok(t)
    else
      match opts[0](t)
      case Ok(t') => ApplyE(t', opts[1..])
      case Fail(t', e) => Fail(t', e)
  }

  // ---------------------------------------------------------------------
  // Properties of the folds
  // ---------------------------------------------------------------------

  /** Infallible options compose sequentially: applying `a + b` is applying `a`, then `b`. */
  lemma {:induction false} ApplyAppend<T>(t: T, a: seq<T -> T>, b: seq<T -> T>)
    ensures Apply(t, a + b) == Apply(Apply(t, a), b)
    decreases |a|
  {
    if a == [] {
      assert a + b == b;
    } else {
      assert (a + b)[1..] == a[1..] + b;
      ApplyAppend(a[0](t), a[1..], b);
    }
  }

  /**
    Fallible options compose sequentially: the options of `b` run on the value
    `a` left, and only when every option of `a` succeeded.
   */
  lemma {:induction false} ApplyEAppend<T, E>(t: T, a: seq<T -> Outcome<T, E>>, b: seq<T -> Outcome<T, E>>)
    ensures ApplyE(t, a + b) == if ApplyE(t, a).Ok? then ApplyE(ApplyE(t, a).value, b) else ApplyE(t, a)
    decreases |a|
  {
    if a == [] {
      assert a + b == b;
    } else {
      assert (a + b)[1..] == a[1..] + b;
      assert (a + b)[0] == a[0];
      match a[0](t)
      case Ok(t') => ApplyEAppend(t', a[1..], b);
      case Fail(_, _) =>
    }
  }

  /**
    Option `k` receives the value left by options `0..k-1`: extending a
    successful prefix by one option yields exactly that option's outcome.
   */
  lemma ApplyEStep<T, E>(t: T, opts: seq<T -> Outcome<T, E>>, k: nat)
    requires k < |opts|
    requires ApplyE(t, opts[..k]).Ok?
    ensures ApplyE(t, opts[..k + 1]) == opts[k](ApplyE(t, opts[..k]).value)
  {
    assert opts[..k + 1] == opts[..k] + [opts[k]];
    ApplyEAppend(t, opts[..k], [opts[k]]);
    assert [opts[k]][1..] == [];
  }

  /**
    Short circuit, pass-through and no rollback: when options `0..k-1`
    succeed and option `k` fails, the whole fold fails with exactly option
    `k`'s outcome, its error unchanged and the value as it left it; the
    options after `k` cannot influence the result.
   */
  lemma FailsAt<T, E>(t: T, opts: seq<T -> Outcome<T, E>>, k: nat)
    requires k < |opts|
    requires ApplyE(t, opts[..k]).Ok?
    requires opts[k](ApplyE(t, opts[..k]).value).Fail?
    ensures ApplyE(t, opts) == opts[k](ApplyE(t, opts[..k]).value)
  {
    ApplyEStep(t, opts, k);
    assert opts == opts[..k + 1] + opts[k + 1..];
    ApplyEAppend(t, opts[..k + 1], opts[k + 1..]);
  }

  /**
    Every failure has a cause: some option `k` failed on the value left by
    the successful options before it, and the fold's outcome is its outcome.
   */
  lemma {:induction false} FailureHasCause<T, E>(t: T, opts: seq<T -> Outcome<T, E>>)
    requires ApplyE(t, opts).Fail?
    ensures exists k :: 0 <= k < |opts| && ApplyE(t, opts[..k]).Ok?
                     && opts[k](ApplyE(t, opts[..k]).value) == ApplyE(t, opts)
    decreases |opts|
  {
    assert opts[..0] == [];
    match opts[0](t)
    case Fail(_, _) =>
      assert 0 < |opts| && ApplyE(t, opts[..0]).Ok?;
    case Ok(t') =>
      var rest := opts[1..];
      FailureHasCause(t', rest);
      var j :| 0 <= j < |rest| && ApplyE(t', rest[..j]).Ok?
               && rest[j](ApplyE(t', rest[..j]).value) == ApplyE(t', rest);
      assert opts[..j + 1] == [opts[0]] + rest[..j];
      ApplyEAppend(t, [opts[0]], rest[..j]);
      assert [opts[0]][1..] == [];
      assert ApplyE(t, opts[..j + 1]) == ApplyE(t', rest[..j]);
  }

  /** A successful fold means every option succeeded on the value its predecessors left. */
  lemma SuccessMeansAllSucceeded<T, E>(t: T, opts: seq<T -> Outcome<T, E>>, k: nat)
    requires ApplyE(t, opts).Ok?
    requires k < |opts|
    ensures ApplyE(t, opts[..k]).Ok? && opts[k](ApplyE(t, opts[..k]).value).Ok?
  {
    assert opts == opts[..k] + opts[k..];
    ApplyEAppend(t, opts[..k], opts[k..]);
    if ApplyE(t, opts[..k]).Ok? && opts[k](ApplyE(t, opts[..k]).value).Fail? {
      FailsAt(t, opts, k);
    }
  }

  /** Adapted infallible options never fail and have the effect of the originals. */
  lemma {:induction false} AdaptedNeverFails<T, E>(t: T, fns: seq<T -> T>, opts: seq<T -> Outcome<T, E>>)
    requires |opts| == |fns|
    requires forall i, x :: 0 <= i < |fns| ==> opts[i](x) == Ok(fns[i](x))
    ensures ApplyE(t, opts) == Ok(Apply(t, fns))
    decreases |fns|
  {
    if fns != [] {
      assert opts[0](t) == Ok(fns[0](t));
      assert forall i, x :: 0 <= i < |fns[1..]| ==> opts[1..][i](x) == Ok(fns[1..][i](x)) by {
        forall i, x | 0 <= i < |fns[1..]| ensures opts[1..][i](x) == Ok(fns[1..][i](x)) {
          assert opts[1..][i] == opts[i + 1] && fns[1..][i] == fns[i + 1];
        }
      }
      AdaptedNeverFails(fns[0](t), fns[1..], opts[1..]);
    }
  }

  // ---------------------------------------------------------------------
  // The four entry points and the adapter
  // ---------------------------------------------------------------------

  /**
    FromE: applies `opts` to `t` in order, stopping at the first error and
    returning it; `t` keeps every change made so far (no rollback).
   */
  method FromE<T, E>(t: Box<T>, opts: seq<T -> Outcome<T, E>>) returns (err: Option<E>)
    modifies t
    ensures err.None? <==> ApplyE(old(t.val), opts).Ok?
    ensures t.val == ApplyE(old(t.val), opts).value
    ensures err.Some? ==> err.value == ApplyE(old(t.val), opts).error
  {
    for i := 0 to |opts|
      invariant ApplyE(old(t.val), opts) == ApplyE(t.val, opts[i..])
    {
      assert opts[i..][1..] == opts[i + 1..];
      var outcome := opts[i](t.val);
      t.val := outcome.value;
      if outcome.Fail? {
        return Some(outcome.error);
      }
    }
    return None;
  }

  /**
    NewE: allocates a target holding Go's zero value of `T`, runs FromE on
    it, and hands the target back only when no option failed.
   */
  method NewE<T, E>(zero: T, opts: seq<T -> Outcome<T, E>>) returns (t: Box?<T>, err: Option<E>)
    ensures t == null <==> err.Some?
    ensures err.Some? <==> ApplyE(zero, opts).Fail?
    ensures err.Some? ==> err.value == ApplyE(zero, opts).error
    ensures t != null ==> fresh(t) && ApplyE(zero, opts) == Ok(t.val)
  {
    var cfg := new Box(zero);
    err := FromE(cfg, opts);
    if err.Some? {
      return null, err;
    }
    return cfg, None;
  }

  /** optFnsToOptFnEs: wraps each infallible option in one that returns no error. */
  method OptFnsToOptFnEs<T, E>(fns: seq<T -> T>) returns (out: seq<T -> Outcome<T, E>>)
    ensures |out| == |fns|
    ensures forall i, x :: 0 <= i < |fns| ==> out[i](x) == Ok(fns[i](x))
  {
    out := [];
    for i := 0 to |fns|
      invariant |out| == i
      invariant forall j, x :: 0 <= j < i ==> out[j](x) == Ok(fns[j](x))
    {
      var fn := fns[i];
      out := out + [(cfg: T) => Ok(fn(cfg))];
    }
  }

  /** From: applies the infallible options to `t` in order, through the fallible loop. */
  method From<T>(t: Box<T>, fns: seq<T -> T>)
    modifies t
    ensures t.val == Apply(old(t.val), fns)
  {
    var opts := OptFnsToOptFnEs<T, ()>(fns);
    AdaptedNeverFails(t.val, fns, opts);
    var err := FromE(t, opts);
  }

  /** New: a fresh target holding the zero value with the infallible options applied. */
  method New<T>(zero: T, fns: seq<T -> T>) returns (t: Box<T>)
    ensures fresh(t) && t.val == Apply(zero, fns)
  {
    var opts := OptFnsToOptFnEs<T, ()>(fns);
    AdaptedNeverFails(zero, fns, opts);
    var cfg, err := NewE(zero, opts);
    t := cfg;
  }
}
