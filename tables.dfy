/**
 * The small part of pandas that the pipeline relies on: a Series is a list of values with
 * an index of labels, a Frame is a list of rows with an index of labels. Boolean indexing
 * keeps the labels of the rows it keeps, and assigning a Series as a column aligns it by
 * label. Only the integer-labelled, equal-length situations the pipeline produces are modelled.
 */
module Tables {
  import opened Wrappers

  datatype Series<T> = Series(index: seq<int>, values: seq<T>)

  datatype Frame<R> = Frame(index: seq<int>, rows: seq<R>)

  /** The default index 0, 1, ..., n-1 that pandas gives a Series or Frame built from a list. */
  function RangeIndex(n: nat): (r: seq<int>)
    ensures |r| == n
    ensures forall i :: 0 <= i < n ==> r[i] == i
  {
    seq(n, i => i)
  }

  predicate Increasing(labels: seq<int>)
  {
    forall i, j :: 0 <= i < j < |labels| ==> labels[i] < labels[j]
  }

  /** `pd.Series(values)`: a Series over a plain list gets the default index, which increases. */
  function FromList<T>(values: seq<T>): (r: Series<T>)
    ensures r.values == values && |r.index| == |values|
    ensures forall i :: 0 <= i < |values| ==> r.index[i] == i
    ensures Increasing(r.index)
  {
    Series(RangeIndex(|values|), values)
  }

  /** `pd.DataFrame(records)` / `pd.read_json`: the rows in load order under the default index. */
  function FromRecords<R>(rows: seq<R>): (f: Frame<R>)
    ensures f.rows == rows && |f.index| == |rows|
    ensures forall i :: 0 <= i < |rows| ==> f.index[i] == i
    ensures Increasing(f.index)
  {
    Frame(RangeIndex(|rows|), rows)
  }

  /** `df[name]`: one column of a frame, keeping the frame's index. */
  function Column<R, T>(f: Frame<R>, field: R -> T): (s: Series<T>)
    ensures s.index == f.index && |s.values| == |f.rows|
    ensures forall i :: 0 <= i < |f.rows| ==> s.values[i] == field(f.rows[i])
  {
    Series(f.index, seq(|f.rows|, i requires 0 <= i < |f.rows| => field(f.rows[i])))
  }

  /** `a + b` on two integer Series that share one index: element-wise addition. */
  function Add(a: Series<int>, b: Series<int>): (r: Series<int>)
    requires a.index == b.index && |a.values| == |b.values|
    ensures r.index == a.index && |r.values| == |a.values|
    ensures forall i :: 0 <= i < |r.values| ==> r.values[i] == a.values[i] + b.values[i]
  {
    Series(a.index, seq(|a.values|, i requires 0 <= i < |a.values| => a.values[i] + b.values[i]))
  }

  /**
   * `df[mask]`: the rows whose mask entry is true, in their original order and under their
   * original labels.
   */
  function Select<R>(f: Frame<R>, mask: seq<bool>): (g: Frame<R>)
    requires |f.index| == |f.rows| == |mask|
    ensures |g.index| == |g.rows| <= |mask|
    decreases |mask|
  {
    if mask == [] then Frame([], [])
    else
      var rest := Select(Frame(f.index[1..], f.rows[1..]), mask[1..]);
      if mask[0] then Frame([f.index[0]] + rest.index, [f.rows[0]] + rest.rows) else rest
  }

  /** On a frame labelled k, k+1, ...: every kept row sits under its own label, with a true mask entry. */
  lemma {:induction false} SelectSound<R>(f: Frame<R>, mask: seq<bool>, k: int)
    requires |f.index| == |f.rows| == |mask|
    requires forall i :: 0 <= i < |f.index| ==> f.index[i] == k + i
    ensures forall i :: 0 <= i < |Select(f, mask).index| ==>
      && k <= Select(f, mask).index[i] < k + |mask|
      && Select(f, mask).rows[i] == f.rows[Select(f, mask).index[i] - k]
      && mask[Select(f, mask).index[i] - k]
    decreases |mask|
  {
    if mask != [] {
      var tail := Frame(f.index[1..], f.rows[1..]);
      SelectSound(tail, mask[1..], k + 1);
      var rest := Select(tail, mask[1..]);
      var g := Select(f, mask);
      forall i | 0 <= i < |g.index|
        ensures k <= g.index[i] < k + |mask| && g.rows[i] == f.rows[g.index[i] - k] && mask[g.index[i] - k]
      {
        if mask[0] && i == 0 {
        } else {
          var p := if mask[0] then i - 1 else i;
          assert g.index[p + |g.index| - |rest.index|] == rest.index[p];
          var x := rest.index[p];
          assert k + 1 <= x < k + 1 + |mask[1..]|;
          assert g.index[i] == x && g.rows[i] == rest.rows[p];
          assert tail.rows[x - (k + 1)] == f.rows[x - k];
          assert mask[1..][x - (k + 1)] == mask[x - k];
        }
      }
    }
  }

  /** On a frame labelled k, k+1, ...: the kept labels are increasing, so the original order is kept. */
  lemma {:induction false} SelectIncreasing<R>(f: Frame<R>, mask: seq<bool>, k: int)
    requires |f.index| == |f.rows| == |mask|
    requires forall i :: 0 <= i < |f.index| ==> f.index[i] == k + i
    ensures Increasing(Select(f, mask).index)
    decreases |mask|
  {
    if mask != [] {
      var tail := Frame(f.index[1..], f.rows[1..]);
      SelectIncreasing(tail, mask[1..], k + 1);
      SelectSound(tail, mask[1..], k + 1);
      var rest := Select(tail, mask[1..]);
      if mask[0] {
        var g := Select(f, mask);
        assert g.index == [k] + rest.index;
        forall i, j | 0 <= i < j < |g.index|
          ensures g.index[i] < g.index[j]
        {
          assert g.index[j] == rest.index[j - 1];
          if i > 0 {
            assert g.index[i] == rest.index[i - 1];
          } else {
            assert k + 1 <= rest.index[j - 1];
          }
        }
      }
    }
  }

  /** On a frame labelled k, k+1, ...: every row with a true mask entry is kept. */
  lemma {:induction false} SelectComplete<R>(f: Frame<R>, mask: seq<bool>, k: int)
    requires |f.index| == |f.rows| == |mask|
    requires forall i :: 0 <= i < |f.index| ==> f.index[i] == k + i
    ensures forall j :: 0 <= j < |mask| && mask[j] ==> k + j in Select(f, mask).index
    decreases |mask|
  {
    if mask != [] {
      var tail := Frame(f.index[1..], f.rows[1..]);
      SelectComplete(tail, mask[1..], k + 1);
      forall j | 0 <= j < |mask| && mask[j]
        ensures k + j in Select(f, mask).index
      {
        if j > 0 {
          assert mask[1..][j - 1];
        }
      }
    }
  }

  /** The value a Series holds under a label (the first one), or None when the label is absent. */
  function Lookup<T>(index: seq<int>, values: seq<T>, key: int): Option<T>
    requires |index| == |values|
  {
    if index == [] then None
    else if index[0] == key then Some(values[0])
    else Lookup(index[1..], values[1..], key)
  }

  /**
   * `df[name] = s`: the new column's cells, one per frame label, taken from `s` by label;
   * a label `s` lacks gives a missing (NaN) cell.
   */
  function Align<T>(s: Series<T>, labels: seq<int>): (cells: seq<Option<T>>)
    requires |s.index| == |s.values|
    ensures |cells| == |labels|
    ensures forall i :: 0 <= i < |labels| ==> (cells[i].Some? <==> labels[i] in s.index)
  {
    LookupPresent(s.index, s.values);
    seq(|labels|, i requires 0 <= i < |labels| => Lookup(s.index, s.values, labels[i]))
  }

  /** A label gets a value exactly when it is in the index. */
  lemma {:induction false} LookupPresent<T>(index: seq<int>, values: seq<T>)
    requires |index| == |values|
    ensures forall key :: Lookup(index, values, key).Some? <==> key in index
  {
    if index != [] {
      LookupPresent(index[1..], values[1..]);
      assert forall key :: key in index <==> key == index[0] || key in index[1..];
    }
  }

  lemma {:induction false} LookupIncreasing<T>(index: seq<int>, values: seq<T>, i: nat)
    requires |index| == |values| && Increasing(index) && i < |index|
    ensures Lookup(index, values, index[i]) == Some(values[i])
  {
    if i > 0 {
      assert index[0] < index[i];
      LookupIncreasing(index[1..], values[1..], i - 1);
    }
  }

  /**
   * Assigning a Series as a column of a frame with the same increasing index fills every
   * row, position by position.
   */
  lemma AlignSameIndex<T>(s: Series<T>)
    requires |s.index| == |s.values| && Increasing(s.index)
    ensures forall i :: 0 <= i < |s.index| ==> Align(s, s.index)[i] == Some(s.values[i])
  {
    forall i | 0 <= i < |s.index|
      ensures Align(s, s.index)[i] == Some(s.values[i])
    {
      LookupIncreasing(s.index, s.values, i);
    }
  }
}
