/** Outcomes of the service's operations: a value, or the Python exception the
    operation raises instead.  `MapAll` is the shape shared by every loop of the
    service that appends `f(x)` for each element `x` of a list. */
module Results {
  import opened Seqs

  datatype Error =
    | KeyError(key: string)          // `d[key]` or `del d[key]` on a missing key
    | WrongType                      // TypeError or AttributeError: indexing, copying or compiling
                                     // a value of the wrong type, or `.split` on a non-string
    | DateFormatError(text: string)  // ValueError: `datetime.strptime(text, '%Y-%m-%d')` rejects `text`
    | EmptySequence                  // `min` of an empty sequence

  datatype Result<+T> = Ok(value: T) | Err(error: Error) {
    predicate IsFailure() { Err? }
    function PropagateFailure<U>(): Result<U>
      requires Err?
    {
      Err(error)
    }
    function Extract(): T
      requires Ok?
    {
      value
    }
  }

  datatype Option<+T> = None | Some(value: T)

  /** Applies `f` to the elements in order and stops at the first error. */
  function MapAll<T, U>(s: seq<T>, f: T -> Result<U>): Result<seq<U>>
    decreases |s|
  {
    if s == [] then Ok([])
    else
      var init :- MapAll(s[..|s| - 1], f);
      var last :- f(s[|s| - 1]);
      Ok(init + [last])
  }

  /** One output per input, in order; the map succeeds exactly when every element does. */
  lemma {:induction false} MapAllOneToOne<T, U>(s: seq<T>, f: T -> Result<U>)
    ensures MapAll(s, f).Ok? <==> forall i :: 0 <= i < |s| ==> f(s[i]).Ok?
    ensures MapAll(s, f).Ok? ==>
      |MapAll(s, f).value| == |s| &&
      forall i :: 0 <= i < |s| ==> f(s[i]) == Ok(MapAll(s, f).value[i])
    decreases |s|
  {
    if s != [] {
      var s' := s[..|s| - 1];
      MapAllOneToOne(s', f);
      assert forall i :: 0 <= i < |s'| ==> s'[i] == s[i];
    }
  }

  /** A failing map reports the error of its first failing element. */
  lemma {:induction false} MapAllFirstError<T, U>(s: seq<T>, f: T -> Result<U>) returns (k: nat)
    requires MapAll(s, f).Err?
    ensures k < |s| && f(s[k]) == Err(MapAll(s, f).error)
    ensures forall j :: 0 <= j < k ==> f(s[j]).Ok?
    decreases |s|
  {
    var s' := s[..|s| - 1];
    assert forall i :: 0 <= i < |s'| ==> s'[i] == s[i];
    if MapAll(s', f).Err? {
      k := MapAllFirstError(s', f);
    } else {
      MapAllOneToOne(s', f);
      k := |s| - 1;
    }
  }

  /** The loop shape: the prefix before `i` succeeded and element `i` fails. */
  lemma MapAllStopsAt<T, U>(s: seq<T>, f: T -> Result<U>, i: nat)
    requires i < |s| && MapAll(s[..i], f).Ok? && f(s[i]).Err?
    ensures MapAll(s, f) == Err(f(s[i]).error)
  {
    MapAllOneToOne(s[..i], f);
    assert forall j :: 0 <= j < i ==> s[..i][j] == s[j];
    MapAllOneToOne(s, f);
    var k := MapAllFirstError(s, f);
  }

  /** The loop step: one more element on the prefix. */
  lemma MapAllSnoc<T, U>(s: seq<T>, f: T -> Result<U>, x: T)
    ensures MapAll(s + [x], f) ==
      match MapAll(s, f)
      case Err(e) => Err(e)
      case Ok(init) => (match f(x) case Err(e) => Err(e) case Ok(y) => Ok(init + [y]))
  {
    assert (s + [x])[..|s|] == s;
  }

  /** Mapping a subsequence gives a subsequence of the mapped whole. */
  lemma {:induction false} MapAllSubseq<T, U>(a: seq<T>, b: seq<T>, f: T -> Result<U>)
    requires Subseq(a, b) && MapAll(b, f).Ok?
    ensures MapAll(a, f).Ok? && Subseq(MapAll(a, f).value, MapAll(b, f).value)
    decreases |b|
  {
    if a != [] {
      var a', b' := a[..|a| - 1], b[..|b| - 1];
      assert b == b' + [b[|b| - 1]];
      MapAllSnoc(b', f, b[|b| - 1]);
      var y := f(b[|b| - 1]).value;
      if a[|a| - 1] == b[|b| - 1] {
        MapAllSubseq(a', b', f);
        assert a == a' + [a[|a| - 1]];
        MapAllSnoc(a', f, a[|a| - 1]);
        SubseqBothSnoc(MapAll(a', f).value, MapAll(b', f).value, y);
      } else {
        MapAllSubseq(a, b', f);
        SubseqSnoc(MapAll(a, f).value, MapAll(b', f).value, y);
      }
    }
  }

  /** Applies `f` to the elements in order, concatenating the lists it returns, and stops
      at the first error. */
  function FlatMapAll<T, U>(s: seq<T>, f: T -> Result<seq<U>>): Result<seq<U>>
    decreases |s|
  {
    if s == [] then Ok([])
    else
      var init :- FlatMapAll(s[..|s| - 1], f);
      var last :- f(s[|s| - 1]);
      Ok(init + last)
  }

  /** The concatenation succeeds exactly when every element does. */
  lemma {:induction false} FlatMapAllOk<T, U>(s: seq<T>, f: T -> Result<seq<U>>)
    ensures FlatMapAll(s, f).Ok? <==> forall i :: 0 <= i < |s| ==> f(s[i]).Ok?
    decreases |s|
  {
    if s != [] {
      var s' := s[..|s| - 1];
      FlatMapAllOk(s', f);
      assert forall i :: 0 <= i < |s'| ==> s'[i] == s[i];
    }
  }

  /** When every element yields `m` outputs, output `i * m + j` is the `j`-th output of
      element `i`. */
  lemma {:induction false} FlatMapAllUniform<T, U>(s: seq<T>, f: T -> Result<seq<U>>, m: nat)
    requires FlatMapAll(s, f).Ok?
    requires forall i :: 0 <= i < |s| ==> f(s[i]).Ok? && |f(s[i]).value| == m
    ensures |FlatMapAll(s, f).value| == |s| * m
    ensures forall i, j :: 0 <= i < |s| && 0 <= j < m ==>
      i * m + j < |s| * m && FlatMapAll(s, f).value[i * m + j] == f(s[i]).value[j]
    decreases |s|
  {
    if s != [] {
      var n := |s| - 1;
      var s' := s[..n];
      assert forall i :: 0 <= i < |s'| ==> s'[i] == s[i];
      FlatMapAllUniform(s', f, m);
      var init := FlatMapAll(s', f).value;
      var last := f(s[n]).value;
      assert FlatMapAll(s, f).value == init + last;
      assert |init| == n * m;
      assert (n + 1) * m == n * m + m;
      forall i, j | 0 <= i < |s| && 0 <= j < m
        ensures i * m + j < |s| * m && FlatMapAll(s, f).value[i * m + j] == f(s[i]).value[j]
      {
        if i < n {
          assert i * m + j < n * m by {
            assert (i + 1) * m <= n * m by { MulMonotone(i + 1, n, m); }
            assert (i + 1) * m == i * m + m;
          }
        } else {
          assert i * m == n * m;
        }
      }
    }
  }

  lemma MulMonotone(a: nat, b: nat, m: nat)
    requires a <= b
    ensures a * m <= b * m
  {
  }

  /** The loop shape: the prefix before `i` succeeded and element `i` fails. */
  lemma {:induction false} FlatMapAllStopsAt<T, U>(s: seq<T>, f: T -> Result<seq<U>>, i: nat)
    requires i < |s| && FlatMapAll(s[..i], f).Ok? && f(s[i]).Err?
    ensures FlatMapAll(s, f) == Err(f(s[i]).error)
    decreases |s|
  {
    var s' := s[..|s| - 1];
    if i < |s| - 1 {
      assert s'[..i] == s[..i] && s'[i] == s[i];
      FlatMapAllStopsAt(s', f, i);
    } else {
      assert s' == s[..i];
    }
  }

  /** The loop step: one more element on the prefix. */
  lemma FlatMapAllSnoc<T, U>(s: seq<T>, f: T -> Result<seq<U>>, x: T)
    ensures FlatMapAll(s + [x], f) ==
      match FlatMapAll(s, f)
      case Err(e) => Err(e)
      case Ok(init) => (match f(x) case Err(e) => Err(e) case Ok(y) => Ok(init + y))
  {
    assert (s + [x])[..|s|] == s;
  }

  /** `f(x, y)` for a fixed `x`. */
  function PairWith<T, U>(f: (T, T) -> Result<U>, x: T): T -> Result<U> {
    y => f(x, y)
  }

  /** The inner loop of a nested loop: `f(x, y)` for every `y`, in order. */
  function RowOf<T, U>(ys: seq<T>, f: (T, T) -> Result<U>): T -> Result<seq<U>> {
    x => MapAll(ys, PairWith(f, x))
  }

  /** A nested loop appending `f(x, y)` for every `x` of `xs` and, inside, every `y` of
      `ys`, stopping at the first error. */
  function Grid<T, U>(xs: seq<T>, ys: seq<T>, f: (T, T) -> Result<U>): Result<seq<U>> {
    FlatMapAll(xs, RowOf(ys, f))
  }

  /** A row succeeds exactly when each of its pairs does, with one output per pair. */
  lemma RowShape<T, U>(ys: seq<T>, f: (T, T) -> Result<U>, x: T)
    ensures RowOf(ys, f)(x).Ok? <==> forall j :: 0 <= j < |ys| ==> f(x, ys[j]).Ok?
    ensures RowOf(ys, f)(x).Ok? ==>
      |RowOf(ys, f)(x).value| == |ys| &&
      forall j :: 0 <= j < |ys| ==> f(x, ys[j]) == Ok(RowOf(ys, f)(x).value[j])
  {
    MapAllOneToOne(ys, PairWith(f, x));
  }

  /** The nested loop succeeds exactly when every pair does. */
  lemma GridOk<T, U>(xs: seq<T>, ys: seq<T>, f: (T, T) -> Result<U>)
    ensures Grid(xs, ys, f).Ok? <==>
      forall i, j :: 0 <= i < |xs| && 0 <= j < |ys| ==> f(xs[i], ys[j]).Ok?
  {
    FlatMapAllOk(xs, RowOf(ys, f));
    forall i | 0 <= i < |xs| {
      RowShape(ys, f, xs[i]);
    }
  }

  /** A successful nested loop holds |xs| * |ys| outputs, `xs` major, the output for
      pair (i, j) at position i * |ys| + j. */
  lemma GridLayout<T, U>(xs: seq<T>, ys: seq<T>, f: (T, T) -> Result<U>)
    requires Grid(xs, ys, f).Ok?
    ensures |Grid(xs, ys, f).value| == |xs| * |ys|
    ensures forall i, j :: 0 <= i < |xs| && 0 <= j < |ys| ==>
      i * |ys| + j < |Grid(xs, ys, f).value| &&
      f(xs[i], ys[j]) == Ok(Grid(xs, ys, f).value[i * |ys| + j])
  {
    var row := RowOf(ys, f);
    var m := |ys|;
    FlatMapAllOk(xs, row);
    forall i | 0 <= i < |xs|
      ensures row(xs[i]).Ok? && |row(xs[i]).value| == m
    {
      RowShape(ys, f, xs[i]);
    }
    FlatMapAllUniform(xs, row, m);
    var g := FlatMapAll(xs, row).value;
    forall i, j | 0 <= i < |xs| && 0 <= j < m
      ensures i * m + j < |g| && f(xs[i], ys[j]) == Ok(g[i * m + j])
    {
      RowShape(ys, f, xs[i]);
      assert g[i * m + j] == row(xs[i]).value[j];
    }
  }

  /** A successful nested loop holds one output per pair. */
  lemma GridLength<T, U>(xs: seq<T>, ys: seq<T>, f: (T, T) -> Result<U>)
    requires Grid(xs, ys, f).Ok?
    ensures |Grid(xs, ys, f).value| == |xs| * |ys|
  {
    GridLayout(xs, ys, f);
  }

  /** The inner loop step: one more pair in the current row. */
  lemma RowStep<T, U>(ys: seq<T>, f: (T, T) -> Result<U>, x: T, j: nat, acc: seq<U>, y: U)
    requires j < |ys| && MapAll(ys[..j], PairWith(f, x)) == Ok(acc) && f(x, ys[j]) == Ok(y)
    ensures MapAll(ys[..j + 1], PairWith(f, x)) == Ok(acc + [y])
  {
    MapAllSnoc(ys[..j], PairWith(f, x), ys[j]);
    assert ys[..j + 1] == ys[..j] + [ys[j]];
  }

  /** The outer loop step: one more complete row. */
  lemma GridStep<T, U>(xs: seq<T>, ys: seq<T>, f: (T, T) -> Result<U>, i: nat, acc: seq<U>, row: seq<U>)
    requires i < |xs| && Grid(xs[..i], ys, f) == Ok(acc) && MapAll(ys, PairWith(f, xs[i])) == Ok(row)
    ensures Grid(xs[..i + 1], ys, f) == Ok(acc + row)
  {
    FlatMapAllSnoc(xs[..i], RowOf(ys, f), xs[i]);
    assert xs[..i + 1] == xs[..i] + [xs[i]];
  }

  /** A failing pair ends both loops with its error. */
  lemma GridStopsAt<T, U>(xs: seq<T>, ys: seq<T>, f: (T, T) -> Result<U>, i: nat, j: nat)
    requires i < |xs| && j < |ys|
    requires Grid(xs[..i], ys, f).Ok? && MapAll(ys[..j], PairWith(f, xs[i])).Ok?
    requires f(xs[i], ys[j]).Err?
    ensures Grid(xs, ys, f) == Err(f(xs[i], ys[j]).error)
  {
    MapAllStopsAt(ys, PairWith(f, xs[i]), j);
    assert RowOf(ys, f)(xs[i]) == Err(f(xs[i], ys[j]).error);
    FlatMapAllStopsAt(xs, RowOf(ys, f), i);
  }
}
