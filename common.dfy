/** Small wrapper datatypes shared by every module of the model. */
module Common {

  /** Python's `None` / value pair. */
  datatype Option<+T> = None | Some(value: T)
  {
    function GetOr(default: T): T
    {
      match this
      case Some(v) => v
      case None => default
    }
  }

  /** The outcome of an operation that raises an exception on failure. */
  datatype Result<+T, +E> = Ok(value: T) | Err(error: E)

  /**
   * A configuration or request value as YAML and JSON load it into Python:
   * `None`, a bool, an int, a float, a string, a list or a dict with string keys.
   */
  datatype Value =
    | NullValue
    | BoolValue(b: bool)
    | IntValue(i: int)
    | FloatValue(r: real)
    | StrValue(s: string)
    | ListValue(items: seq<Value>)
    | DictValue(entries: map<string, Value>)

  function Min(a: real, b: real): real { if a <= b then a else b }

  function Max(a: real, b: real): real { if a >= b then a else b }

  function Abs(a: real): real { if a < 0.0 then -a else a }

  /** Sum of a sequence of reals, left to right as Python's `sum` does. */
  function SumReals(s: seq<real>): real
  {
    if s == [] then 0.0 else SumReals(s[..|s| - 1]) + s[|s| - 1]
  }

  lemma SumRealsAppend(s: seq<real>, x: real)
    ensures SumReals(s + [x]) == SumReals(s) + x
  {
    assert (s + [x])[..|s + [x]| - 1] == s;
  }

  lemma {:induction false} SumRealsConcat(a: seq<real>, b: seq<real>)
    ensures SumReals(a + b) == SumReals(a) + SumReals(b)
    decreases |b|
  {
    if b == [] {
      assert a + b == a;
    } else {
      var b' := b[..|b| - 1];
      assert a + b == (a + b') + [b[|b| - 1]];
      SumRealsAppend(a + b', b[|b| - 1]);
      SumRealsConcat(a, b');
      SumRealsAppend(b', b[|b| - 1]);
      assert b' + [b[|b| - 1]] == b;
    }
  }

  /** Replacing one element changes the sum by the difference. */
  lemma SumRealsUpdate(s: seq<real>, i: nat, x: real)
    requires i < |s|
    ensures SumReals(s[i := x]) == SumReals(s) - s[i] + x
  {
    var a, y, b := s[..i], s[i], s[i + 1..];
    assert s == a + [y] + b;
    assert s[i := x] == a + [x] + b;
    SumRealsConcat(a + [y], b);
    SumRealsConcat(a + [x], b);
    SumRealsAppend(a, y);
    SumRealsAppend(a, x);
  }

  /** Dropping one element lowers the sum by that element. */
  lemma SumRealsRemove(s: seq<real>, i: nat)
    requires i < |s|
    ensures SumReals(s[..i] + s[i + 1..]) == SumReals(s) - s[i]
  {
    var a, x, b := s[..i], s[i], s[i + 1..];
    assert s == a + [x] + b;
    SumRealsConcat(a + [x], b);
    SumRealsConcat(a, b);
    SumRealsAppend(a, x);
  }

  /** Running (cumulative) sums, as pandas' `cumsum`. */
  function CumSum(s: seq<real>): (r: seq<real>)
    ensures |r| == |s|
    ensures forall i :: 0 <= i < |s| ==> r[i] == SumReals(s[..i + 1])
  {
    if s == [] then []
    else
      var prefix := CumSum(s[..|s| - 1]);
      assert forall i :: 0 <= i < |s| - 1 ==> prefix[i] == SumReals(s[..i + 1]) by {
        forall i | 0 <= i < |s| - 1 ensures prefix[i] == SumReals(s[..i + 1]) {
          assert s[..|s| - 1][..i + 1] == s[..i + 1];
        }
      }
      assert s[..|s|] == s;
      prefix + [SumReals(s)]
  }

  /** The first element failing `ok`, as a loop that raises on it finds it. */
  function FirstFailing<T>(xs: seq<T>, ok: T -> bool): Option<T>
  {
    if xs == [] then None
    else
      var earlier := FirstFailing(xs[..|xs| - 1], ok);
      if earlier.Some? then earlier
      else if !ok(xs[|xs| - 1]) then Some(xs[|xs| - 1])
      else None
  }

  /** Nothing fails exactly when every element passes; otherwise the one found is the earliest failure. */
  lemma {:induction false} FirstFailingSpec<T>(xs: seq<T>, ok: T -> bool)
    ensures FirstFailing(xs, ok).None? <==> forall i :: 0 <= i < |xs| ==> ok(xs[i])
    ensures FirstFailing(xs, ok).Some? ==> exists i :: (0 <= i < |xs| && xs[i] == FirstFailing(xs, ok).value
      && !ok(xs[i]) && forall j :: 0 <= j < i ==> ok(xs[j]))
  {
    if xs != [] {
      var rest := xs[..|xs| - 1];
      FirstFailingSpec(rest, ok);
      assert forall i :: 0 <= i < |rest| ==> rest[i] == xs[i];
    }
  }

  /** A failure in a prefix is the first failure of the whole sequence. */
  lemma {:induction false} FirstFailingPrefix<T>(xs: seq<T>, ok: T -> bool, n: nat)
    requires n <= |xs| && FirstFailing(xs[..n], ok).Some?
    ensures FirstFailing(xs, ok) == FirstFailing(xs[..n], ok)
    decreases |xs| - n
  {
    if n < |xs| {
      assert xs[..n + 1][..n] == xs[..n];
      FirstFailingPrefix(xs, ok, n + 1);
    } else {
      assert xs[..n] == xs;
    }
  }

  /** A loop that appends each `Ok` value in turn and stops at the first `Err`. */
  function AllOk<T, E>(rs: seq<Result<T, E>>): Result<seq<T>, E>
    decreases |rs|
  {
    if rs == [] then Ok([])
    else
      match AllOk(rs[..|rs| - 1])
      case Err(e) => Err(e)
      case Ok(done) =>
        match rs[|rs| - 1]
        case Err(e) => Err(e)
        case Ok(t) => Ok(done + [t])
  }

  /**
   * Success exactly when every element succeeds, and then the values in
   * order; otherwise the error of the earliest failing element.
   */
  lemma {:induction false} AllOkMeaning<T, E>(rs: seq<Result<T, E>>)
    ensures AllOk(rs).Ok? <==> forall i :: 0 <= i < |rs| ==> rs[i].Ok?
    ensures AllOk(rs).Ok? ==> |AllOk(rs).value| == |rs| && forall i :: 0 <= i < |rs| ==> rs[i] == Ok(AllOk(rs).value[i])
    ensures AllOk(rs).Err? ==> exists i :: (0 <= i < |rs| && rs[i] == Err(AllOk(rs).error)
      && forall j :: 0 <= j < i ==> rs[j].Ok?)
    decreases |rs|
  {
    if rs != [] {
      var n := |rs| - 1;
      var init := rs[..n];
      AllOkMeaning(init);
      assert forall i :: 0 <= i < n ==> init[i] == rs[i];
    }
  }

  lemma AllOkStep<T, E>(rs: seq<Result<T, E>>, k: nat, done: seq<T>)
    requires k < |rs| && AllOk(rs[..k]) == Ok(done)
    ensures AllOk(rs[..k + 1]) == (if rs[k].Ok? then Ok(done + [rs[k].value]) else Err(rs[k].error))
  {
    assert rs[..k + 1][..k] == rs[..k];
  }

  /** `f` applied to every element, in order. */
  function Mapped<A, B>(xs: seq<A>, f: A -> B): (ys: seq<B>)
    ensures |ys| == |xs| && forall i :: 0 <= i < |xs| ==> ys[i] == f(xs[i])
  {
    seq(|xs|, i requires 0 <= i < |xs| => f(xs[i]))
  }

  /**
   * A loop that runs `step` on each element in turn, keeping the values and
   * giving up with the first error (a `raise` inside a `for` loop).
   */
  method CollectOks<A, T, E>(xs: seq<A>, step: A -> Result<T, E>) returns (r: Result<seq<T>, E>)
    ensures r == AllOk(Mapped(xs, step))
  {
    ghost var rs := Mapped(xs, step);
    var done := [];
    for k := 0 to |xs|
      invariant AllOk(rs[..k]) == Ok(done)
    {
      var row := step(xs[k]);
      AllOkStep(rs, k, done);
      if row.Err? {
        AllOkStops(rs, k + 1);
        return Err(row.error);
      }
      done := done + [row.value];
    }
    assert rs[..|xs|] == rs;
    r := Ok(done);
  }

  /** Once a prefix fails, the whole sequence fails with the same error. */
  lemma {:induction false} AllOkStops<T, E>(rs: seq<Result<T, E>>, k: nat)
    requires k <= |rs| && AllOk(rs[..k]).Err?
    ensures AllOk(rs) == AllOk(rs[..k])
    decreases |rs| - k
  {
    if k < |rs| {
      assert rs[..k + 1][..k] == rs[..k];
      AllOkStops(rs, k + 1);
    } else {
      assert rs[..k] == rs;
    }
  }

  /** No element occurs twice. */
  predicate NoRepeats<T(==)>(xs: seq<T>)
  {
    forall i, j :: 0 <= i < j < |xs| ==> xs[i] != xs[j]
  }

  /**
   * The elements `known` does not hold for, in order and with their repeats:
   * what a loop adds to a session that looks each element up in the
   * committed table only.
   */
  function Unknown<T(==,!new)>(xs: seq<T>, known: T -> bool): (r: seq<T>)
    ensures |r| <= |xs|
    ensures forall x :: x in r <==> x in xs && !known(x)
  {
    if xs == [] then []
    else
      var x := xs[|xs| - 1];
      assert xs == xs[..|xs| - 1] + [x];
      Unknown(xs[..|xs| - 1], known) + (if known(x) then [] else [x])
  }

  /** Every element that occurs twice satisfies `known`. */
  predicate RepeatsKnown<T(==)>(xs: seq<T>, known: T -> bool)
  {
    forall i, j :: 0 <= i < j < |xs| && xs[i] == xs[j] ==> known(xs[i])
  }

  /** The unknown elements hold no repeat exactly when every element that occurs twice is known. */
  lemma {:induction false} UnknownNoRepeats<T(!new)>(xs: seq<T>, known: T -> bool)
    ensures NoRepeats(Unknown(xs, known)) <==> RepeatsKnown(xs, known)
  {
    if xs != [] {
      var n := |xs| - 1;
      var init, x := xs[..n], xs[n];
      assert xs == init + [x];
      UnknownNoRepeats(init, known);
      RepeatsKnownAppend(init, x, known);
      var u := Unknown(init, known);
      if known(x) {
        assert Unknown(xs, known) == u;
      } else {
        assert Unknown(xs, known) == u + [x];
        assert x in u <==> x in init;
        NoRepeatsAppend(u, x);
      }
    }
  }

  lemma NoRepeatsAppend<T>(u: seq<T>, x: T)
    ensures NoRepeats(u + [x]) <==> NoRepeats(u) && x !in u
  {
    var v := u + [x];
    if x in u {
      var k :| 0 <= k < |u| && u[k] == x;
      assert v[k] == v[|u|];
    }
    if NoRepeats(u) && x !in u {
      forall i, j | 0 <= i < j < |v| ensures v[i] != v[j] {
        if j < |u| { assert v[i] == u[i] && v[j] == u[j]; } else { assert v[i] == u[i]; }
      }
    }
    if NoRepeats(v) {
      forall i, j | 0 <= i < j < |u| ensures u[i] != u[j] { assert v[i] == u[i] && v[j] == u[j]; }
    }
  }

  lemma RepeatsKnownAppend<T>(init: seq<T>, x: T, known: T -> bool)
    ensures RepeatsKnown(init + [x], known) <==> RepeatsKnown(init, known) && (x in init ==> known(x))
  {
    var v := init + [x];
    if x in init && !known(x) {
      var k :| 0 <= k < |init| && init[k] == x;
      assert v[k] == v[|init|];
    }
    if RepeatsKnown(init, known) && (x in init ==> known(x)) {
      forall i, j | 0 <= i < j < |v| && v[i] == v[j] ensures known(v[i]) {
        if j < |init| { assert v[i] == init[i] && v[j] == init[j]; } else { assert v[i] == init[i]; }
      }
    }
    if RepeatsKnown(v, known) {
      forall i, j | 0 <= i < j < |init| && init[i] == init[j] ensures known(init[i]) { assert v[i] == init[i] && v[j] == init[j]; }
    }
  }
}
