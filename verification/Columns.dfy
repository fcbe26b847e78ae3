/** Column letters: the four loops that print a column, the loop that reads one back, and the
    letter sum of the Python `CellRef` constructor. */
module Columns {
  import opened Options

  const U32_MAX: nat := 0xFFFF_FFFF
  const MAX_COL: nat := 16_384

  // ----- Bijective base 26 -----

  function Letter(d: nat): char
    requires d < 26
  {
    'A' + d as char
  }

  /** The letters of a 1-based column; column 0 has none. */
  function Letters(column: nat): string {
    if column == 0 then "" else Letters((column - 1) / 26) + [Letter((column - 1) % 26)]
  }

  predicate IsUpper(c: char) {
    'A' <= c <= 'Z'
  }

  predicate IsAlphabetic(c: char) {
    'A' <= c <= 'Z' || 'a' <= c <= 'z'
  }

  predicate AllUpper(s: string) {
    forall i :: 0 <= i < |s| ==> IsUpper(s[i])
  }

  predicate AllAlphabetic(s: string) {
    forall i :: 0 <= i < |s| ==> IsAlphabetic(s[i])
  }

  /** `u8::to_ascii_uppercase`. */
  function ToUpper(c: char): char {
    if 'a' <= c <= 'z' then c - 'a' + 'A' else c
  }

  function ToUpperAll(s: string): (r: string)
    ensures |r| == |s|
    ensures AllAlphabetic(s) ==> AllUpper(r)
  {
    seq(|s|, i requires 0 <= i < |s| => ToUpper(s[i]))
  }

  function Digit(c: char): (d: nat)
    requires IsUpper(c)
    ensures 1 <= d <= 26
  {
    (c - 'A') as nat + 1
  }

  /** Base-26 evaluation with digits 1 to 26. */
  function Value(s: string): nat
    requires AllUpper(s)
  {
    if s == "" then 0 else Value(s[..|s| - 1]) * 26 + Digit(s[|s| - 1])
  }

  lemma {:induction false} LettersUpper(column: nat)
    ensures AllUpper(Letters(column))
  {
    if column > 0 {
      LettersUpper((column - 1) / 26);
    }
  }

  lemma {:induction false} ValueOfLetters(column: nat)
    ensures AllUpper(Letters(column)) && Value(Letters(column)) == column
  {
    LettersUpper(column);
    if column > 0 {
      ValueOfLetters((column - 1) / 26);
      assert Letters(column)[..|Letters(column)| - 1] == Letters((column - 1) / 26);
    }
  }

  lemma {:induction false} LettersOfValue(s: string)
    requires AllUpper(s)
    ensures Letters(Value(s)) == s
  {
    if s != "" {
      var front, last := s[..|s| - 1], s[|s| - 1];
      LettersOfValue(front);
      assert Value(s) - 1 == Value(front) * 26 + (Digit(last) - 1);
      assert (Value(s) - 1) / 26 == Value(front) && (Value(s) - 1) % 26 == Digit(last) - 1;
      assert s == front + [last];
    }
  }

  // ----- Order: shorter first, then alphabetical -----

  predicate Before(s: string, t: string) {
    |s| < |t| || (|s| == |t| && exists i :: 0 <= i < |s| && s[..i] == t[..i] && s[i] < t[i])
  }

  /** The first column whose letters number `n`: 0, 1, 27, 703, ... */
  function FirstOfLength(n: nat): nat {
    if n == 0 then 0 else FirstOfLength(n - 1) * 26 + 1
  }

  lemma {:induction false} ValueBounds(s: string)
    requires AllUpper(s)
    ensures FirstOfLength(|s|) <= Value(s) < FirstOfLength(|s| + 1)
  {
    if s != "" {
      ValueBounds(s[..|s| - 1]);
    }
  }

  lemma {:induction false} FirstOfLengthMonotone(m: nat, n: nat)
    requires m <= n
    ensures FirstOfLength(m) <= FirstOfLength(n)
  {
    if m < n {
      FirstOfLengthMonotone(m, n - 1);
    }
  }

  lemma {:induction false} SameLengthOrder(s: string, t: string, i: nat)
    requires AllUpper(s) && AllUpper(t) && |s| == |t|
    requires i < |s| && s[..i] == t[..i] && s[i] < t[i]
    ensures Value(s) < Value(t)
    decreases |s|
  {
    var front, front' := s[..|s| - 1], t[..|t| - 1];
    if i == |s| - 1 {
      assert front == front';
    } else {
      assert front[..i] == s[..i] && front'[..i] == t[..i];
      SameLengthOrder(front, front', i);
    }
  }

  lemma ValueMonotone(s: string, t: string)
    requires AllUpper(s) && AllUpper(t) && Before(s, t)
    ensures Value(s) < Value(t)
  {
    if |s| < |t| {
      ValueBounds(s);
      ValueBounds(t);
      FirstOfLengthMonotone(|s| + 1, |t|);
    } else {
      var i :| 0 <= i < |s| && s[..i] == t[..i] && s[i] < t[i];
      SameLengthOrder(s, t, i);
    }
  }

  lemma {:induction false} FirstDifference(s: string, t: string) returns (i: nat)
    requires |s| == |t| && s != t
    ensures i < |s| && s[..i] == t[..i] && s[i] != t[i]
  {
    if s[0] != t[0] {
      i := 0;
    } else {
      var j := FirstDifference(s[1..], t[1..]);
      i := j + 1;
      assert s[..i] == [s[0]] + s[1..][..j] && t[..i] == [t[0]] + t[1..][..j];
    }
  }

  lemma BeforeTotal(s: string, t: string)
    requires s != t
    ensures Before(s, t) || Before(t, s)
  {
    if |s| == |t| {
      var i := FirstDifference(s, t);
      assert s[..i] == t[..i] && t[..i] == s[..i];
      if s[i] < t[i] {
        assert Before(s, t);
      } else {
        assert t[i] < s[i];
      }
    }
  }

  /** Columns and non-empty upper-case strings correspond one to one, and the correspondence
      keeps the order. */
  lemma LettersBijection(column: nat, s: string)
    requires AllUpper(s)
    ensures Letters(column) == s <==> Value(s) == column
    ensures column >= 1 <==> Letters(column) != ""
  {
    ValueOfLetters(column);
    LettersOfValue(s);
  }

  lemma LettersOrder(a: nat, b: nat)
    ensures a < b <==> Before(Letters(a), Letters(b))
  {
    ValueOfLetters(a);
    ValueOfLetters(b);
    if Before(Letters(a), Letters(b)) {
      ValueMonotone(Letters(a), Letters(b));
    } else if a < b {
      BeforeTotal(Letters(a), Letters(b));
      ValueMonotone(Letters(b), Letters(a));
    }
  }

  // ----- The printers -----

  /** `number_to_column` of the Python binding. */
  method NumberToColumn(column: nat) returns (result: string)
    ensures result == Letters(column)
  {
    var col := column;
    result := "";
    while col > 0
      invariant Letters(column) == Letters(col) + result
    {
      col := col - 1;
      result := [Letter(col % 26)] + result;
      col := col / 26;
    }
  }

  /** `col_to_letters` of the WASM binding: the loop body runs first, so column 0 underflows. */
  method ColToLetters(col: nat) returns (result: string)
    requires col >= 1
    ensures result == Letters(col)
  {
    var n := col;
    result := "";
    while true
      invariant n >= 1
      invariant Letters(col) == Letters(n) + result
      decreases n
    {
      n := n - 1;
      result := [Letter(n % 26)] + result;
      n := n / 26;
      if n == 0 {
        break;
      }
    }
  }

  function Reversed(s: string): (r: string)
    ensures |r| == |s|
  {
    if s == "" then "" else Reversed(s[1..]) + [s[0]]
  }

  lemma {:induction false} ReversedPush(s: string, c: char)
    ensures Reversed(s + [c]) == [c] + Reversed(s)
  {
    if s != "" {
      assert (s + [c])[1..] == s[1..] + [c];
      ReversedPush(s[1..], c);
    }
  }

  /** `column_to_letters` of the common crate, on 0-based columns. */
  method ColumnToLetters(column0: nat) returns (result: string)
    ensures result == Letters(column0 + 1)
  {
    var col, buf := column0, "";
    while true
      invariant Letters(column0 + 1) == Letters(col + 1) + Reversed(buf)
      decreases col
    {
      ReversedPush(buf, Letter(col % 26));
      buf := buf + [Letter(col % 26)];
      col := col / 26;
      if col == 0 {
        break;
      }
      col := col - 1;
    }
    result := Reversed(buf);
  }

  /** `unbounded_column_letters` of the common crate, on 1-based columns. */
  method UnboundedColumnLetters(column0: nat) returns (result: string)
    ensures result == Letters(column0)
  {
    var column, reversed := column0, "";
    while column > 0
      invariant Letters(column0) == Letters(column) + Reversed(reversed)
    {
      column := column - 1;
      ReversedPush(reversed, Letter(column % 26));
      reversed := reversed + [Letter(column % 26)];
      column := column / 26;
    }
    result := Reversed(reversed);
  }

  /** `col_letters_from_1based`. */
  function LettersInGrid(col: nat): Option<string> {
    if col == 0 || col > MAX_COL then None else Some(Letters(col))
  }

  // ----- The reader -----

  /** The 0-based column of a letter string, None for anything that is not letters or overflows. */
  function IndexOf(s: string): Option<nat> {
    if s == "" || !AllAlphabetic(s) then None
    else
      var n := Value(ToUpperAll(s)) - 1;
      if n <= U32_MAX then Some(n) else None
  }

  lemma {:induction false} ValuePrefix(s: string, n: nat)
    requires AllUpper(s) && n <= |s|
    ensures AllUpper(s[..n]) && Value(s[..n]) <= Value(s)
    ensures n < |s| ==> 26 * Value(s[..n]) < Value(s)
    decreases |s| - n
  {
    if n == |s| {
      assert s[..n] == s;
    } else {
      ValuePrefix(s, n + 1);
      assert s[..n + 1][..n] == s[..n];
    }
  }

  lemma ToUpperAllPush(s: string, n: nat)
    requires n < |s|
    ensures ToUpperAll(s[..n + 1]) == ToUpperAll(s[..n]) + [ToUpper(s[n])]
    ensures ToUpperAll(s)[..n + 1] == ToUpperAll(s[..n + 1])
  {
  }

  /** `letters_to_column_index`, with its checked u32 arithmetic. */
  method LettersToColumnIndex(s: string) returns (r: Option<nat>)
    ensures r == IndexOf(s)
  {
    if s == "" {
      return None;
    }
    var col: nat := 0;
    for idx := 0 to |s|
      invariant AllAlphabetic(s[..idx])
      invariant idx < |s| ==> col == Value(ToUpperAll(s[..idx]))
      invariant idx == |s| ==> col + 1 == Value(ToUpperAll(s[..idx]))
      invariant col <= U32_MAX
    {
      var upper := ToUpper(s[idx]);
      if !IsUpper(upper) {
        return None;
      }
      var val := (upper - 'A') as nat;
      ToUpperAllPush(s, idx);
      var front := ToUpperAll(s[..idx + 1]);
      assert s[..idx + 1] == s[..idx] + [s[idx]];
      assert front[..idx] == ToUpperAll(s[..idx]);
      if AllAlphabetic(s) {
        ValuePrefix(ToUpperAll(s), idx + 1);
      }
      if col * 26 > U32_MAX {
        return None;
      }
      col := col * 26;
      if col + val > U32_MAX {
        return None;
      }
      col := col + val;
      if idx != |s| - 1 {
        if col + 1 > U32_MAX {
          return None;
        }
        col := col + 1;
      }
    }
    assert s[..|s|] == s;
    return Some(col);
  }

  /** `col_index_from_letters_1based`. */
  function ColumnInGrid(s: string): Option<nat> {
    match IndexOf(s)
    case None => None
    case Some(zeroBased) => if zeroBased < MAX_COL then Some(zeroBased + 1) else None
  }

  lemma UpperStaysUpper(s: string)
    requires AllUpper(s)
    ensures AllAlphabetic(s) && ToUpperAll(s) == s
  {
  }

  /** Reading back printed letters succeeds on exactly the grid's columns. */
  lemma ColumnRoundTrip(column: nat)
    ensures ColumnInGrid(Letters(column)) == Some(column) <==> 1 <= column <= MAX_COL
    ensures !(1 <= column <= MAX_COL) ==> ColumnInGrid(Letters(column)) == None
  {
    IndexOfLetters(column);
    hide Letters, IndexOf;
  }

  lemma IndexOfLetters(column: nat)
    ensures IndexOf(Letters(column)) == if 1 <= column <= U32_MAX + 1 then Some(column - 1) else None
  {
    var letters := Letters(column);
    LettersUpper(column);
    NoLetters(column);
    hide Letters, Value, ToUpperAll, AllUpper, AllAlphabetic;
    LettersBijection(column, letters);
    UpperStaysUpper(letters);
  }

  lemma NoLetters(column: nat)
    ensures Letters(column) == "" <==> column == 0
  {
  }

  // ----- The Python CellRef constructor -----

  /** What `CellRef::new` computes from a letter column: the letter values added up. */
  function LetterSum(s: string): nat
    requires AllUpper(s)
  {
    if s == "" then 0 else LetterSum(s[..|s| - 1]) + Digit(s[|s| - 1])
  }

  lemma {:induction false} LetterSumBelowValue(s: string)
    requires AllUpper(s) && s != ""
    ensures LetterSum(s) <= Value(s)
    ensures LetterSum(s) == Value(s) <==> |s| == 1
  {
    var front := s[..|s| - 1];
    if front != "" {
      LetterSumBelowValue(front);
    }
  }

  /** The constructor undoes `str_col` on one-letter columns and on no longer one. */
  lemma CellRefColumnIff(column: nat)
    requires column >= 1
    ensures AllUpper(Letters(column))
    ensures LetterSum(Letters(column)) == column <==> |Letters(column)| == 1
    ensures |Letters(column)| == 1 <==> column <= 26
  {
    ValueOfLetters(column);
    LetterSumBelowValue(Letters(column));
    assert column > 26 ==> (column - 1) / 26 >= 1 && Letters((column - 1) / 26) != "";
  }
}
