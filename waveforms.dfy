/**
 * Waveform arithmetic of the encoder: the column-wise mean that forms the
 * background reference, the `nanmean` used to average edge positions, and the
 * elementwise background correction with its inverse.
 *
 * Values are reals; a sample that is not a finite number (NaN, or an infinity
 * produced by a division by zero) is `NaN`, and every operation propagates it.
 */
module Waveforms {
  /** One pixel value or edge position; `NaN` stands for any non-finite value (NaN or an infinity). */
  datatype Sample = NaN | Finite(value: real)

  /** Waveforms, one row per shot. */
  type Rows = seq<seq<Sample>>

  /** Every row has `width` pixels (a 2-D numpy array of that many columns). */
  predicate Rectangular(rows: Rows, width: nat) {
    forall i :: 0 <= i < |rows| ==> |rows[i]| == width
  }

  function Plus(a: Sample, b: Sample): Sample {
    if a.Finite? && b.Finite? then Finite(a.value + b.value) else NaN
  }

  function Minus(a: Sample, b: Sample): Sample {
    if a.Finite? && b.Finite? then Finite(a.value - b.value) else NaN
  }

  function Times(a: Sample, b: Sample): Sample {
    if a.Finite? && b.Finite? then Finite(a.value * b.value) else NaN
  }

  /** Division; a zero divisor gives an infinity or NaN, both non-finite. */
  function Quotient(a: Sample, b: Sample): Sample {
    if a.Finite? && b.Finite? && b.value != 0.0 then Finite(a.value / b.value) else NaN
  }

  // ---------------------------------------------------------------------------
  // Column-wise mean (`data.mean(axis=0)`)
  // ---------------------------------------------------------------------------

  function ColumnSum(rows: Rows, c: nat): Sample
    requires forall i :: 0 <= i < |rows| ==> c < |rows[i]|
  {
    if rows == [] then Finite(0.0) else Plus(rows[0][c], ColumnSum(rows[1..], c))
  }

  lemma DivideProduct(n: real, x: real)
    requires n > 0.0
    ensures (n * x) / n == x
  {
  }

  /** `rows.mean(axis=0)` of a matrix with `width` columns; every column is NaN when there is no row. */
  function ColumnMean(rows: Rows, width: nat): (mean: seq<Sample>)
    requires Rectangular(rows, width)
    ensures |mean| == width
  {
    seq(width, c requires 0 <= c < width =>
      if |rows| == 0 then NaN else Quotient(ColumnSum(rows, c), Finite(|rows| as real)))
  }

  lemma {:induction false} ColumnSumUndefined(rows: Rows, c: nat)
    requires forall i :: 0 <= i < |rows| ==> c < |rows[i]|
    ensures ColumnSum(rows, c).NaN? <==> exists i :: 0 <= i < |rows| && rows[i][c].NaN?
  {
    if rows != [] {
      ColumnSumUndefined(rows[1..], c);
      if exists i :: 0 <= i < |rows[1..]| && rows[1..][i][c].NaN? {
        var i :| 0 <= i < |rows[1..]| && rows[1..][i][c].NaN?;
        assert rows[i + 1][c].NaN?;
      }
      if exists i :: 0 <= i < |rows| && rows[i][c].NaN? {
        var i :| 0 <= i < |rows| && rows[i][c].NaN?;
        if i > 0 { assert rows[1..][i - 1][c].NaN?; }
      }
    }
  }

  /** A background column is non-finite exactly when there is no row or some row is non-finite there. */
  lemma ColumnMeanUndefined(rows: Rows, width: nat, c: nat)
    requires Rectangular(rows, width) && c < width
    ensures ColumnMean(rows, width)[c].NaN? <==>
            |rows| == 0 || exists i :: 0 <= i < |rows| && rows[i][c].NaN?
  {
    ColumnSumUndefined(rows, c);
  }

  lemma {:induction false} ColumnSumOfRepeatedRow(rows: Rows, v: seq<Sample>, c: nat)
    requires c < |v| && forall i :: 0 <= i < |rows| ==> rows[i] == v
    ensures ColumnSum(rows, c) == if |rows| == 0 then Finite(0.0)
                                  else Times(Finite(|rows| as real), v[c])
  {
    if |rows| > 0 {
      ColumnSumOfRepeatedRow(rows[1..], v, c);
      if v[c].Finite? {
        var x, n := v[c].value, |rows| as real;
        if |rows| == 1 {
          assert x + 0.0 == 1.0 * x;
        } else {
          var m := |rows[1..]| as real;
          assert m == n - 1.0;
          assert ColumnSum(rows[1..], c) == Finite(m * x);
          assert x + m * x == n * x;
        }
      }
    }
  }

  /** Averaging identical shots gives that shot back, finite or not. */
  lemma ColumnMeanOfRepeatedRow(rows: Rows, v: seq<Sample>)
    requires |rows| > 0 && forall i :: 0 <= i < |rows| ==> rows[i] == v
    ensures ColumnMean(rows, |v|) == v
  {
    forall c | 0 <= c < |v| ensures ColumnMean(rows, |v|)[c] == v[c] {
      ColumnSumOfRepeatedRow(rows, v, c);
      if v[c].Finite? {
        var x, n := v[c].value, |rows| as real;
        assert ColumnSum(rows, c) == Finite(n * x);
        DivideProduct(n, x);
      }
    }
  }

  // ---------------------------------------------------------------------------
  // nanmean
  // ---------------------------------------------------------------------------

  /** The finite entries of `s`, in order. */
  function FiniteValues(s: seq<Sample>): (vs: seq<real>)
    ensures |vs| <= |s|
  {
    if s == [] then []
    else (if s[0].Finite? then [s[0].value] else []) + FiniteValues(s[1..])
  }

  function Sum(vs: seq<real>): real {
    if vs == [] then 0.0 else vs[0] + Sum(vs[1..])
  }

  /**
   * `np.nanmean(s)` for edge positions that are finite or NaN: the mean of the
   * finite entries, NaN when there is none. (numpy propagates an infinity,
   * which this model does not tell apart from NaN; edge positions are taken
   * never to be infinite.)
   */
  function NanMean(s: seq<Sample>): Sample {
    var vs := FiniteValues(s);
    if |vs| == 0 then NaN else Finite(Sum(vs) / |vs| as real)
  }

  lemma {:induction false} FiniteValuesAppend(a: seq<Sample>, b: seq<Sample>)
    ensures FiniteValues(a + b) == FiniteValues(a) + FiniteValues(b)
  {
    if a == [] {
      assert a + b == b;
    } else {
      assert (a + b)[0] == a[0];
      assert (a + b)[1..] == a[1..] + b;
      FiniteValuesAppend(a[1..], b);
    }
  }

  lemma {:induction false} FiniteValuesEmpty(s: seq<Sample>)
    ensures FiniteValues(s) == [] <==> forall i :: 0 <= i < |s| ==> s[i].NaN?
  {
    if s != [] {
      FiniteValuesEmpty(s[1..]);
      assert forall i :: 1 <= i < |s| ==> s[i] == s[1..][i - 1];
    }
  }

  /** nanmean is undetermined exactly when every entry is. */
  lemma NanMeanUndefined(s: seq<Sample>)
    ensures NanMean(s).NaN? <==> forall i :: 0 <= i < |s| ==> s[i].NaN?
  {
    FiniteValuesEmpty(s);
  }

  /** An undetermined entry, wherever it is inserted, does not change nanmean. */
  lemma NanMeanIgnoresUndetermined(s: seq<Sample>, k: nat)
    requires k <= |s|
    ensures NanMean(s[..k] + [NaN] + s[k..]) == NanMean(s)
  {
    var front, back := s[..k], s[k..];
    assert FiniteValues([NaN]) == [];
    FiniteValuesAppend(front, [NaN]);
    assert FiniteValues(front + [NaN]) == FiniteValues(front);
    FiniteValuesAppend(front + [NaN], back);
    FiniteValuesAppend(front, back);
    assert front + back == s;
    assert FiniteValues(front + [NaN] + back) == FiniteValues(s);
  }

  lemma {:induction false} FiniteValuesOfConstant(s: seq<Sample>, x: real)
    requires forall i :: 0 <= i < |s| ==> s[i].NaN? || s[i].value == x
    ensures forall j :: 0 <= j < |FiniteValues(s)| ==> FiniteValues(s)[j] == x
  {
    if s != [] {
      FiniteValuesOfConstant(s[1..], x);
    }
  }

  lemma {:induction false} SumOfConstant(vs: seq<real>, x: real)
    requires forall j :: 0 <= j < |vs| ==> vs[j] == x
    ensures Sum(vs) == |vs| as real * x
  {
    if vs != [] {
      SumOfConstant(vs[1..], x);
    }
  }

  /** When every determined entry equals `x` and one exists, nanmean is `x`. */
  lemma NanMeanOfConstant(s: seq<Sample>, x: real)
    requires exists i :: 0 <= i < |s| && s[i].Finite?
    requires forall i :: 0 <= i < |s| ==> s[i].NaN? || s[i].value == x
    ensures NanMean(s) == Finite(x)
  {
    FiniteValuesEmpty(s);
    FiniteValuesOfConstant(s, x);
    var vs := FiniteValues(s);
    SumOfConstant(vs, x);
    var n := |vs| as real;
    assert Sum(vs) == n * x;
    DivideProduct(n, x);
  }

  // ---------------------------------------------------------------------------
  // Background correction (`background_method` 'div' or 'sub')
  // ---------------------------------------------------------------------------

  /** The two background removal methods an encoder accepts. */
  datatype BackgroundMethod = Div | Sub

  /** One corrected pixel: `x / b - 1` for 'div', `x - b` for 'sub'. */
  function Corrected(x: Sample, b: Sample, mode: BackgroundMethod): Sample {
    match mode
    case Sub => Minus(x, b)
    case Div => Minus(Quotient(x, b), Finite(1.0))
  }

  /** The inverse of `Corrected`: `(y + 1) * b` for 'div', `y + b` for 'sub'. */
  function Restored(y: Sample, b: Sample, mode: BackgroundMethod): Sample {
    match mode
    case Sub => Plus(y, b)
    case Div => Times(Plus(y, Finite(1.0)), b)
  }

  /** numpy broadcasting of a 1-D background against rows of `width` pixels. */
  predicate Broadcasts(width: nat, bg: seq<Sample>) {
    |bg| == width || |bg| == 1
  }

  /** The background value that broadcasting pairs with column `c`. */
  function BackgroundAt(bg: seq<Sample>, c: nat): Sample
    requires |bg| == 1 || c < |bg|
  {
    if |bg| == 1 then bg[0] else bg[c]
  }

  function CorrectRow(row: seq<Sample>, bg: seq<Sample>, mode: BackgroundMethod): (r: seq<Sample>)
    requires Broadcasts(|row|, bg)
    ensures |r| == |row|
  {
    seq(|row|, c requires 0 <= c < |row| => Corrected(row[c], BackgroundAt(bg, c), mode))
  }

  /** Background removal of a matrix with `width` columns, pixel by pixel; the shape is kept. */
  function CorrectRows(rows: Rows, width: nat, bg: seq<Sample>, mode: BackgroundMethod): (r: Rows)
    requires Rectangular(rows, width) && Broadcasts(width, bg)
    ensures |r| == |rows| && Rectangular(r, width)
  {
    seq(|rows|, i requires 0 <= i < |rows| => CorrectRow(rows[i], bg, mode))
  }

  function RestoreRows(rows: Rows, width: nat, bg: seq<Sample>, mode: BackgroundMethod): (r: Rows)
    requires Rectangular(rows, width) && Broadcasts(width, bg)
    ensures |r| == |rows| && Rectangular(r, width)
  {
    seq(|rows|, i requires 0 <= i < |rows| =>
      seq(width, c requires 0 <= c < width => Restored(rows[i][c], BackgroundAt(bg, c), mode)))
  }

  predicate AllFinite(s: seq<Sample>) {
    forall c :: 0 <= c < |s| ==> s[c].Finite?
  }

  /** A background the correction can be undone with: finite, and without zeros for 'div'. */
  predicate Invertible(bg: seq<Sample>, mode: BackgroundMethod) {
    AllFinite(bg) && (mode == Div ==> forall c :: 0 <= c < |bg| ==> bg[c].value != 0.0)
  }

  lemma RestoreCorrectedPixel(x: real, b: real, mode: BackgroundMethod)
    requires mode == Div ==> b != 0.0
    ensures Restored(Corrected(Finite(x), Finite(b), mode), Finite(b), mode) == Finite(x)
  {
    if mode == Div {
      var q := x / b;
      assert q * b == x;
      assert Corrected(Finite(x), Finite(b), mode) == Finite(q - 1.0);
      assert (q - 1.0 + 1.0) * b == x;
    }
  }

  /** Background removal loses nothing: with a finite (for 'div', nonzero) background it can be undone. */
  lemma RestoreCorrectRows(rows: Rows, width: nat, bg: seq<Sample>, mode: BackgroundMethod)
    requires Rectangular(rows, width) && Broadcasts(width, bg) && Invertible(bg, mode)
    requires forall i :: 0 <= i < |rows| ==> AllFinite(rows[i])
    ensures RestoreRows(CorrectRows(rows, width, bg, mode), width, bg, mode) == rows
  {
    var restored := RestoreRows(CorrectRows(rows, width, bg, mode), width, bg, mode);
    forall i | 0 <= i < |rows| ensures restored[i] == rows[i] {
      forall c | 0 <= c < width ensures restored[i][c] == rows[i][c] {
        var b := BackgroundAt(bg, c);
        assert b == bg[if |bg| == 1 then 0 else c];
        RestoreCorrectedPixel(rows[i][c].value, b.value, mode);
      }
    }
  }

  /** The background corrected by itself is a flat zero waveform, for both methods. */
  lemma CorrectBackgroundItself(bg: seq<Sample>, mode: BackgroundMethod)
    requires Invertible(bg, mode)
    ensures forall c :: 0 <= c < |bg| ==> CorrectRow(bg, bg, mode)[c] == Finite(0.0)
  {
    forall c | 0 <= c < |bg| ensures CorrectRow(bg, bg, mode)[c] == Finite(0.0) {
      if |bg| == 1 { assert c == 0; }
      if mode == Div {
        var b := bg[c].value;
        assert b / b == 1.0;
      }
    }
  }
}
