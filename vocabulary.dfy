/** The category vocabulary of one categorical column, as scikit-learn's
    `LabelEncoder` keeps it: `classes_` is the column's distinct values in
    ascending order, and a value's code is its position in `classes_`. Also the
    serving-side `validate_input` that maps values outside the vocabulary to a
    default. */
module Vocabulary {
  import opened Wrappers
  import opened Text

  /** The shape of a fitted `classes_`: ascending, hence without duplicates. */
  predicate StrictlySorted(xs: seq<string>) {
    forall i, j :: 0 <= i < j < |xs| ==> Below(xs[i], xs[j])
  }

  lemma HeadBelowRest(xs: seq<string>)
    requires StrictlySorted(xs) && xs != []
    ensures forall y :: y in xs[1..] ==> Below(xs[0], y)
  {
    forall y | y in xs[1..]
      ensures Below(xs[0], y)
    {
      var k :| 0 <= k < |xs[1..]| && xs[1..][k] == y;
      assert xs[k + 1] == y;
    }
  }

  lemma ConsSorted(h: string, r: seq<string>)
    requires StrictlySorted(r)
    requires forall y :: y in r ==> Below(h, y)
    ensures StrictlySorted([h] + r)
  {
    var s := [h] + r;
    forall i, j | 0 <= i < j < |s|
      ensures Below(s[i], s[j])
    {
      if i == 0 {
        assert s[j] == r[j - 1] && s[j] in r;
      } else {
        assert s[i] == r[i - 1] && s[j] == r[j - 1];
      }
    }
  }

  /** Adds one value to a fitted vocabulary, keeping it ascending. */
  function Insert(xs: seq<string>, x: string): (r: seq<string>)
    requires StrictlySorted(xs)
    ensures StrictlySorted(r)
    ensures forall y :: y in r <==> y in xs || y == x
  {
    if xs == [] then [x]
    else if x == xs[0] then xs
    else if Below(x, xs[0]) then
      HeadBelowRest(xs);
      BelowTransitiveFrom(x, xs[0], xs[1..]);
      ConsSorted(x, xs);
      [x] + xs
    else
      var r := Insert(xs[1..], x);
      BelowTotal(x, xs[0]);
      HeadBelowRest(xs);
      ConsSorted(xs[0], r);
      assert xs == [xs[0]] + xs[1..];
      [xs[0]] + r
  }

  lemma BelowTransitiveFrom(a: string, b: string, ys: seq<string>)
    requires Below(a, b)
    requires forall y :: y in ys ==> Below(b, y)
    ensures forall y :: y in [b] + ys ==> Below(a, y)
  {
    forall y | y in [b] + ys
      ensures Below(a, y)
    {
      if y != b {
        BelowTransitive(a, b, y);
      }
    }
  }

  /** The classes a label encoder learns from a column of strings: each distinct
      value once, in code-point order (`sorted(set(column))`). */
  function Fit(column: seq<string>): (classes: seq<string>)
    ensures StrictlySorted(classes)
    ensures forall y :: y in classes <==> y in column
  {
    if column == [] then []
    else
      var init := column[..|column| - 1];
      assert column == init + [column[|column| - 1]];
      Insert(Fit(init), column[|column| - 1])
  }

  /** Two ascending sequences with the same values are the same sequence. */
  lemma {:induction false} SortedUnique(a: seq<string>, b: seq<string>)
    requires StrictlySorted(a) && StrictlySorted(b)
    requires forall y :: y in a <==> y in b
    ensures a == b
  {
    SameValuesSameEmptiness(a, b);
    if a != [] {
      assert a[0] in b;
      assert b != [];
      HeadBelowRest(a);
      HeadBelowRest(b);
      if a[0] != b[0] {
        assert a[0] in b[1..] by {
          var k :| 0 <= k < |b| && b[k] == a[0];
          assert k != 0 && b[1..][k - 1] == a[0];
        }
        assert b[0] in a[1..] by {
          assert b[0] in a;
          var k :| 0 <= k < |a| && a[k] == b[0];
          assert k != 0 && a[1..][k - 1] == b[0];
        }
        BelowAsymmetric(a[0], b[0]);
        assert false;
      }
      forall y
        ensures y in a[1..] <==> y in b[1..]
      {
        if y in a[1..] {
          BelowIrreflexive(y);
          assert y in a && y in b && y != b[0];
          var k :| 0 <= k < |b| && b[k] == y;
          assert b[1..][k - 1] == y;
        }
        if y in b[1..] {
          BelowIrreflexive(y);
          assert y in b && y in a && y != a[0];
          var k :| 0 <= k < |a| && a[k] == y;
          assert a[1..][k - 1] == y;
        }
      }
      SortedUnique(a[1..], b[1..]);
      assert a == [a[0]] + a[1..] && b == [b[0]] + b[1..];
    }
  }

  lemma SameValuesSameEmptiness(a: seq<string>, b: seq<string>)
    requires forall y :: y in a <==> y in b
    ensures a == [] <==> b == []
  {
    if a != [] {
      assert a[0] in b;
    }
    if b != [] {
      assert b[0] in a;
    }
  }

  /** The vocabulary depends only on which values occur, not on row order or repetition. */
  lemma FitIsCanonical(c1: seq<string>, c2: seq<string>)
    requires forall y :: y in c1 <==> y in c2
    ensures Fit(c1) == Fit(c2)
  {
    SortedUnique(Fit(c1), Fit(c2));
  }

  datatype EncodeError = UnseenLabel(value: string)

  /** Position of the first occurrence of `v` in `xs`. */
  function IndexOf(xs: seq<string>, v: string): (i: nat)
    requires v in xs
    ensures i < |xs| && xs[i] == v
  {
    if xs[0] == v then 0 else 1 + IndexOf(xs[1..], v)
  }

  /** `LabelEncoder.transform([v])[0]`: the code of `v`, or the `ValueError` raised
      for a value outside `classes_`. */
  function Encode(classes: seq<string>, v: string): (r: Result<nat, EncodeError>)
    ensures r.Success? <==> v in classes
    ensures r.Success? ==> r.value < |classes| && classes[r.value] == v
    ensures r.Failure? ==> r.error == UnseenLabel(v)
  {
    if v in classes then Success(IndexOf(classes, v)) else Failure(UnseenLabel(v))
  }

  /** `LabelEncoder().fit_transform(column)`: every value replaced by its code. */
  function FitTransform(column: seq<string>): (codes: seq<nat>)
    ensures |codes| == |column|
    ensures forall i :: 0 <= i < |column| ==> codes[i] < |Fit(column)| && Fit(column)[codes[i]] == column[i]
  {
    var classes := Fit(column);
    seq(|column|, i requires 0 <= i < |column| => Encode(classes, column[i]).value)
  }

  /** Codes are dense: every code of a fitted column lies in [0, number of distinct
      values), and equal codes mean equal values. */
  lemma FitTransformDistinct(column: seq<string>, i: nat, j: nat)
    requires i < |column| && j < |column|
    ensures FitTransform(column)[i] == FitTransform(column)[j] <==> column[i] == column[j]
  {
    BelowIrreflexive(column[i]);
  }

  lemma {:induction false} PrefixCard(c: seq<string>, i: nat)
    requires StrictlySorted(c) && i <= |c|
    ensures |set j | 0 <= j < i :: c[j]| == i
  {
    if i > 0 {
      PrefixCard(c, i - 1);
      var before := set j | 0 <= j < i - 1 :: c[j];
      assert (set j | 0 <= j < i :: c[j]) == before + {c[i - 1]};
      if c[i - 1] in before {
        var j :| 0 <= j < i - 1 && c[j] == c[i - 1];
        BelowIrreflexive(c[j]);
      }
    }
  }

  lemma RankSet(column: seq<string>, c: seq<string>, i: nat)
    requires StrictlySorted(c) && i < |c|
    requires forall y :: y in c <==> y in column
    ensures (set y | y in column && Below(y, c[i])) == set j | 0 <= j < i :: c[j]
  {
    var v := c[i];
    forall y | y in column && Below(y, v)
      ensures y in set j | 0 <= j < i :: c[j]
    {
      var j :| 0 <= j < |c| && c[j] == y;
      if j == i {
        BelowIrreflexive(v);
      } else if j > i {
        BelowAsymmetric(v, y);
      }
    }
    forall j | 0 <= j < i
      ensures c[j] in column && Below(c[j], v)
    {
      assert c[j] in c;
    }
  }

  /** A value's code is its rank: the number of distinct column values sorting before it. */
  lemma CodeIsRank(column: seq<string>, v: string)
    requires v in column
    ensures Encode(Fit(column), v) == Success(|set y | y in column && Below(y, v)|)
  {
    var c := Fit(column);
    var i := Encode(c, v).value;
    RankSet(column, c, i);
    PrefixCard(c, i);
  }

  /** `validate_input(value, encoder_classes, default_value)`: keep a value the
      encoder knows, substitute the default for anything else (including an
      absent form field). */
  function ValidateInput(value: Option<string>, classes: seq<string>, default: string): string {
    if value.Some? && value.value in classes then value.value else default
  }

  /** Known values pass unchanged; every other input becomes the default. */
  lemma ValidateInputCases(value: Option<string>, classes: seq<string>, default: string)
    ensures value.Some? && value.value in classes ==> ValidateInput(value, classes, default) == value.value
    ensures !(value.Some? && value.value in classes) ==> ValidateInput(value, classes, default) == default
  {
  }

  /** With a default from the vocabulary the result is always encodable, and
      validating twice is validating once. */
  lemma ValidateInputClosed(value: Option<string>, classes: seq<string>, default: string)
    requires default in classes
    ensures ValidateInput(value, classes, default) in classes
    ensures Encode(classes, ValidateInput(value, classes, default)).Success?
    ensures ValidateInput(Some(ValidateInput(value, classes, default)), classes, default)
            == ValidateInput(value, classes, default)
  {
  }

  /** A fresh encoder fitted on a single value knows only that value, with code 0. */
  lemma SingleValueEncodesToZero(v: string)
    ensures Fit([v]) == [v]
    ensures Encode(Fit([v]), v) == Success(0)
  {
    assert [v][..0] == [];
  }
}
