/** String operations of the Go standard library that the operator's naming schemes rely on. */
module Text {

  /** strconv.Itoa for non-negative numbers. */
  function Itoa(n: nat): (s: string)
    ensures s != []
  {
    if n < 10 then [Digit(n)] else Itoa(n / 10) + [Digit(n % 10)]
  }

  function Digit(d: nat): char
    requires d < 10
  {
    '0' + d as char
  }

  lemma {:induction false} ItoaInjective(a: nat, b: nat)
    requires Itoa(a) == Itoa(b)
    ensures a == b
    decreases a
  {
    var s := Itoa(a);
    if a >= 10 && b >= 10 {
      assert Itoa(a / 10) == s[..|s| - 1] == Itoa(b / 10);
      assert Digit(a % 10) == s[|s| - 1] == Digit(b % 10);
      ItoaInjective(a / 10, b / 10);
    }
  }

  /** The number that a sequence of decimal digits stands for. */
  function NumberOf(s: string): int {
    if s == [] then 0 else 10 * NumberOf(s[..|s| - 1]) + (s[|s| - 1] as int - '0' as int)
  }

  /** The decimal representation has digits only, no leading zero, and stands for the number. */
  lemma {:induction false} ItoaIsDecimal(n: nat)
    ensures forall i | 0 <= i < |Itoa(n)| :: '0' <= Itoa(n)[i] <= '9'
    ensures Itoa(n)[0] == '0' ==> n == 0 && |Itoa(n)| == 1
    ensures NumberOf(Itoa(n)) == n
    decreases n
  {
    var s := Itoa(n);
    if n < 10 {
      assert s[..0] == [];
    } else {
      ItoaIsDecimal(n / 10);
      assert s[..|s| - 1] == Itoa(n / 10);
    }
  }

  /** strings.ReplaceAll with a single character as search and replacement string. */
  function ReplaceAll(s: string, from: char, to: char): (r: string)
    ensures |r| == |s|
    ensures forall i | 0 <= i < |s| :: r[i] == if s[i] == from then to else s[i]
  {
    if s == [] then [] else [if s[0] == from then to else s[0]] + ReplaceAll(s[1..], from, to)
  }

  function Flatten<T>(rows: seq<seq<T>>): seq<T> {
    if rows == [] then [] else Flatten(rows[..|rows| - 1]) + rows[|rows| - 1]
  }

  /** The position of element (row, column) in the flattened sequence. */
  function FlatIndex<T>(rows: seq<seq<T>>, row: nat, column: nat): nat
    requires row < |rows|
  {
    |Flatten(rows[..row])| + column
  }

  lemma {:induction false} FlattenAt<T>(rows: seq<seq<T>>, row: nat, column: nat)
    requires row < |rows| && column < |rows[row]|
    ensures FlatIndex(rows, row, column) < |Flatten(rows)|
    ensures Flatten(rows)[FlatIndex(rows, row, column)] == rows[row][column]
  {
    var init := rows[..|rows| - 1];
    if row < |rows| - 1 {
      assert init[..row] == rows[..row];
      FlattenAt(init, row, column);
    }
  }

  lemma {:induction false} FlattenUpdate<T>(rows: seq<seq<T>>, row: nat, column: nat, x: T)
    requires row < |rows| && column < |rows[row]|
    ensures FlatIndex(rows, row, column) < |Flatten(rows)|
    ensures Flatten(rows[row := rows[row][column := x]]) == Flatten(rows)[FlatIndex(rows, row, column) := x]
  {
    FlattenAt(rows, row, column);
    var updated := rows[row := rows[row][column := x]];
    var init := rows[..|rows| - 1];
    if row < |rows| - 1 {
      assert init[..row] == rows[..row];
      assert updated[..|rows| - 1] == init[row := init[row][column := x]];
      FlattenUpdate(init, row, column, x);
    } else {
      assert updated[..|rows| - 1] == init;
    }
  }

  /** Every position of the flattened sequence belongs to an element of one of the rows. */
  lemma {:induction false} FlattenFrom<T>(rows: seq<seq<T>>, i: nat) returns (row: nat, column: nat)
    requires i < |Flatten(rows)|
    ensures row < |rows| && column < |rows[row]| && FlatIndex(rows, row, column) == i
  {
    var init := rows[..|rows| - 1];
    if i < |Flatten(init)| {
      row, column := FlattenFrom(init, i);
      assert init[..row] == rows[..row];
    } else {
      row, column := |rows| - 1, i - |Flatten(init)|;
    }
  }

  lemma {:induction false} FlattenAppend<T>(rows: seq<seq<T>>, row: seq<T>)
    ensures Flatten(rows + [row]) == Flatten(rows) + row
  {
    assert (rows + [row])[..|rows|] == rows;
  }

  lemma FlattenNext<T>(rows: seq<seq<T>>, i: nat)
    requires i < |rows|
    ensures Flatten(rows[..i + 1]) == Flatten(rows[..i]) + rows[i]
    ensures rows[i][..|rows[i]|] == rows[i]
  {
    TakeOneMore(rows, i);
    FlattenAppend(rows[..i], rows[i]);
  }

  ghost predicate SameShape<A, B>(a: seq<seq<A>>, b: seq<seq<B>>) {
    |a| == |b| && forall i | 0 <= i < |a| :: |a[i]| == |b[i]|
  }

  lemma {:induction false} SameShapeSameIndex<A, B>(a: seq<seq<A>>, b: seq<seq<B>>)
    requires SameShape(a, b)
    ensures |Flatten(a)| == |Flatten(b)|
    ensures forall i, j: nat | 0 <= i < |a| :: FlatIndex(a, i, j) == FlatIndex(b, i, j)
  {
    if a != [] {
      var n := |a| - 1;
      SameShapeSameIndex(a[..n], b[..n]);
      forall i, j: nat | 0 <= i < |a|
        ensures FlatIndex(a, i, j) == FlatIndex(b, i, j)
      {
        if i < n {
          assert a[..i] == a[..n][..i] && b[..i] == b[..n][..i];
          assert FlatIndex(a[..n], i, j) == FlatIndex(b[..n], i, j);
        }
      }
    }
  }

  lemma TakeOneMore<T>(s: seq<T>, n: nat)
    requires n < |s|
    ensures s[..n + 1] == s[..n] + [s[n]]
  {
  }

  /** Text before the first separator is determined by the whole text. */
  lemma FirstSeparator(a: string, b: string, separator: char, s: string)
    requires a + [separator] <= s && b + [separator] <= s
    requires separator !in a && separator !in b
    ensures a == b
  {
    assert s[|a|] == (a + [separator])[|a|] == separator;
    assert s[|b|] == (b + [separator])[|b|] == separator;
    assert a == s[..|a|] && b == s[..|b|];
  }
}
