/** Option and Result, the two failure-carrying types the solvers return. */
module Wrappers {

  datatype Option<+T> = None | Some(value: T) {
    function GetOr(default: T): T {
      match this
      case Some(v) => v
      case None => default
    }
  }

  /** `std::cmp::Ordering`. */
  datatype Ordering = Less | Equal | Greater

  /** `Ord::cmp` on integers. */
  function Cmp(a: int, b: int): Ordering {
    if a < b then Less else if a == b then Equal else Greater
  }

  /** A Rust `Result`. Parsers that `unwrap`, `expect` or reach `unreachable!`
      report `Panic`; a `?` on a failed integer parse reports `BadNumber`; a
      returned error string or character reports `Bad`. A loop that would run
      on past the step bound a model gives it reports `Diverges`. */
  datatype Error = BadNumber | Bad(reason: string) | Panic | Diverges

  datatype Result<+T> = Ok(value: T) | Err(error: Error)

  /** `iter().map(f).collect::<Result<Vec<_>, _>>()`: the results in order,
      or the first error. */
  function MapResult<A, B>(xs: seq<A>, f: A -> Result<B>): (r: Result<seq<B>>)
    ensures r.Ok? ==> |r.value| == |xs|
  {
    if xs == [] then Ok([])
    else match f(xs[0])
      case Err(e) => Err(e)
      case Ok(y) =>
        match MapResult(xs[1..], f)
        case Err(e) => Err(e)
        case Ok(ys) => Ok([y] + ys)
  }

  lemma {:induction false} MapResultSnoc<A, B>(xs: seq<A>, x: A, f: A -> Result<B>)
    ensures MapResult(xs + [x], f) == match MapResult(xs, f)
      case Err(e) => Err(e)
      case Ok(ys) => (match f(x) case Err(e) => Err(e) case Ok(y) => Ok(ys + [y]))
  {
    if xs == [] {
      assert [x][1..] == [] && xs + [x] == [x];
      if f(x).Ok? {
        assert [f(x).value] + [] == [] + [f(x).value];
      }
    } else {
      assert (xs + [x])[1..] == xs[1..] + [x];
      MapResultSnoc(xs[1..], x, f);
      if f(xs[0]).Ok? && MapResult(xs[1..], f).Ok? && f(x).Ok? {
        assert [f(xs[0]).value] + (MapResult(xs[1..], f).value + [f(x).value])
          == ([f(xs[0]).value] + MapResult(xs[1..], f).value) + [f(x).value];
      }
    }
  }

  /** An error among the first elements is the error of the whole. */
  lemma {:induction false} MapResultErr<A, B>(xs: seq<A>, more: seq<A>, f: A -> Result<B>)
    requires MapResult(xs, f).Err?
    ensures MapResult(xs + more, f) == MapResult(xs, f)
  {
    assert (xs + more)[0] == xs[0];
    assert (xs + more)[1..] == xs[1..] + more;
    if f(xs[0]).Ok? {
      MapResultErr(xs[1..], more, f);
    }
  }

  /** One step of a loop that collects the results of `f` over `xs`: an
      `Ok` extends the collected prefix, an `Err` is the result of the
      whole. */
  lemma MapResultStep<A, B>(xs: seq<A>, i: nat, f: A -> Result<B>, ys: seq<B>)
    requires i < |xs| && MapResult(xs[..i], f) == Ok(ys)
    ensures f(xs[i]).Ok? ==> MapResult(xs[..i + 1], f) == Ok(ys + [f(xs[i]).value])
    ensures f(xs[i]).Err? ==> MapResult(xs, f) == Err(f(xs[i]).error)
  {
    assert xs[..i + 1] == xs[..i] + [xs[i]];
    if f(xs[i]).Ok? {
      SnocOk(xs[..i], xs[i], f, ys);
    } else {
      assert MapResult(xs[..i + 1], f) == Err(f(xs[i]).error) by {
        SnocErr(xs[..i], xs[i], f, ys);
      }
      ErrPrefix(xs, i + 1, f);
    }
  }

  lemma ErrPrefix<A, B>(xs: seq<A>, j: nat, f: A -> Result<B>)
    requires j <= |xs| && MapResult(xs[..j], f).Err?
    ensures MapResult(xs, f) == MapResult(xs[..j], f)
  {
    MapResultErr(xs[..j], xs[j..], f);
    assert xs[..j] + xs[j..] == xs;
  }

  lemma SnocOk<A, B>(xs: seq<A>, x: A, f: A -> Result<B>, ys: seq<B>)
    requires MapResult(xs, f) == Ok(ys) && f(x).Ok?
    ensures MapResult(xs + [x], f) == Ok(ys + [f(x).value])
  {
    MapResultSnoc(xs, x, f);
  }

  lemma SnocErr<A, B>(xs: seq<A>, x: A, f: A -> Result<B>, ys: seq<B>)
    requires MapResult(xs, f) == Ok(ys) && f(x).Err?
    ensures MapResult(xs + [x], f) == Err(f(x).error)
  {
    MapResultSnoc(xs, x, f);
  }

  /** Each `Ok` element is the image of the element at the same place. */
  lemma {:induction false} MapResultAt<A, B>(xs: seq<A>, f: A -> Result<B>, i: nat)
    requires MapResult(xs, f).Ok? && i < |xs|
    ensures f(xs[i]) == Ok(MapResult(xs, f).value[i])
  {
    if i > 0 {
      MapResultAt(xs[1..], f, i - 1);
    }
  }

  /** When every element maps to a value, the values are collected in
      order. */
  lemma {:induction false} MapResultAll<A, B>(xs: seq<A>, f: A -> Result<B>, ys: seq<B>)
    requires |xs| == |ys| && forall i :: 0 <= i < |xs| ==> f(xs[i]) == Ok(ys[i])
    ensures MapResult(xs, f) == Ok(ys)
  {
    if xs != [] {
      MapResultAll(xs[1..], f, ys[1..]);
      assert f(xs[0]) == Ok(ys[0]);
      assert [ys[0]] + ys[1..] == ys;
    }
  }

  /** A collection over two parts in a row is the collections of the parts,
      one after the other. */
  lemma {:induction false} MapResultSplit<A, B>(xs: seq<A>, ys: seq<A>, f: A -> Result<B>)
    requires MapResult(xs + ys, f).Ok?
    ensures var c := MapResult(xs + ys, f).value;
      |xs| <= |c| && MapResult(xs, f) == Ok(c[..|xs|]) && MapResult(ys, f) == Ok(c[|xs|..])
  {
    var c := MapResult(xs + ys, f).value;
    if xs == [] {
      assert xs + ys == ys;
      assert c[0..] == c;
    } else {
      assert (xs + ys)[0] == xs[0];
      assert (xs + ys)[1..] == xs[1..] + ys;
      MapResultSplit(xs[1..], ys, f);
      assert c[1..][..|xs| - 1] == c[1..|xs|];
      assert c[..|xs|] == [c[0]] + c[1..|xs|];
      assert c[1..][|xs| - 1..] == c[|xs|..];
    }
  }
}
