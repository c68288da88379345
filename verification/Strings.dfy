/** Splitting at a separator and decimal numbers, as the standard library of Go has them. */
module Strings {
  import opened Options

  /** The parts of `s` between separators. */
  function Split(s: string, sep: char): (parts: seq<string>)
    ensures |parts| >= 1
  {
    if s == [] then [""] else WithFirst(s[0], Split(s[1..], sep), sep)
  }

  function WithFirst(c: char, rest: seq<string>, sep: char): seq<string>
    requires |rest| >= 1
  {
    if c == sep then [""] + rest else [[c] + rest[0]] + rest[1..]
  }

  function LastExtended(parts: seq<string>, t: string): seq<string>
    requires |parts| >= 1
  {
    parts[|parts| - 1 := parts[|parts| - 1] + t]
  }

  function Join(parts: seq<string>, sep: char): string {
    if parts == [] then ""
    else if |parts| == 1 then parts[0]
    else Join(parts[..|parts| - 1], sep) + [sep] + parts[|parts| - 1]
  }

  lemma FirstAndLast(c: char, rest: seq<string>, t: string, sep: char)
    requires |rest| >= 1
    ensures WithFirst(c, LastExtended(rest, t), sep) == LastExtended(WithFirst(c, rest, sep), t)
  {
    if c != sep && |rest| == 1 {
      assert [c] + (rest[0] + t) == ([c] + rest[0]) + t;
    }
  }

  lemma {:induction false} WithoutSeparators(t: string, sep: char)
    requires sep !in t
    ensures Split(t, sep) == [t]
  {
    if t != [] {
      WithoutSeparators(t[1..], sep);
      assert t == [t[0]] + t[1..];
    }
  }

  /** A suffix without separators lengthens the last part and no other. */
  lemma {:induction false} SuffixLengthensLastPart(s: string, t: string, sep: char)
    requires sep !in t
    ensures Split(s + t, sep) == LastExtended(Split(s, sep), t)
    decreases |s|
  {
    if s == [] {
      assert s + t == t;
      WithoutSeparators(t, sep);
    } else {
      assert (s + t)[1..] == s[1..] + t && (s + t)[0] == s[0];
      SuffixLengthensLastPart(s[1..], t, sep);
      FirstAndLast(s[0], Split(s[1..], sep), t, sep);
    }
  }

  lemma {:induction false} SeparatorAddsPart(s: string, sep: char)
    ensures Split(s + [sep], sep) == Split(s, sep) + [""]
  {
    if s == [] {
      assert s + [sep] == [sep] && [sep][1..] == [];
    } else {
      assert (s + [sep])[1..] == s[1..] + [sep] && (s + [sep])[0] == s[0];
      SeparatorAddsPart(s[1..], sep);
    }
  }

  /** Splitting undoes joining. */
  lemma {:induction false} SplitJoin(parts: seq<string>, sep: char)
    requires parts != [] && forall i :: 0 <= i < |parts| ==> sep !in parts[i]
    ensures Split(Join(parts, sep), sep) == parts
  {
    var n := |parts| - 1;
    if n == 0 {
      SuffixLengthensLastPart([], parts[0], sep);
      assert [] + parts[0] == parts[0];
    } else {
      var before := Join(parts[..n], sep);
      SplitJoin(parts[..n], sep);
      SeparatorAddsPart(before, sep);
      SuffixLengthensLastPart(before + [sep], parts[n], sep);
      assert "" + parts[n] == parts[n];
      assert LastExtended(parts[..n] + [""], parts[n]) == parts;
    }
  }

  /** Joining undoes splitting. */
  lemma {:induction false} JoinSplit(s: string, sep: char)
    ensures Join(Split(s, sep), sep) == s
    decreases |s|
  {
    if s != [] {
      var n := |s| - 1;
      assert s == s[..n] + [s[n]];
      JoinSplit(s[..n], sep);
      var parts := Split(s[..n], sep);
      if s[n] == sep {
        SeparatorAddsPart(s[..n], sep);
        assert (parts + [""])[..|parts|] == parts;
        assert Join(parts + [""], sep) == Join(parts, sep) + [sep] + "";
      } else {
        SuffixLengthensLastPart(s[..n], [s[n]], sep);
        LongerLastJoins(parts, [s[n]], sep);
      }
    }
  }

  lemma LongerLastJoins(parts: seq<string>, t: string, sep: char)
    requires |parts| >= 1
    ensures Join(LastExtended(parts, t), sep) == Join(parts, sep) + t
  {
    var n := |parts| - 1;
    assert LastExtended(parts, t)[..n] == parts[..n];
    if n > 0 {
      var before := Join(parts[..n], sep) + [sep];
      assert before + (parts[n] + t) == (before + parts[n]) + t;
    }
  }

  // ---- Decimal numbers ----

  predicate IsDigit(c: char) {
    '0' <= c <= '9'
  }

  predicate AllDigits(s: string) {
    forall i :: 0 <= i < |s| ==> IsDigit(s[i])
  }

  function Value(s: string): nat
    requires AllDigits(s)
  {
    if s == "" then 0 else 10 * Value(s[..|s| - 1]) + (s[|s| - 1] - '0') as nat
  }

  function Decimal(n: nat): (s: string)
    ensures s != "" && AllDigits(s)
  {
    (if n < 10 then "" else Decimal(n / 10)) + ['0' + (n % 10) as char]
  }

  lemma {:induction false} DecimalValue(n: nat)
    ensures Value(Decimal(n)) == n
  {
    var front, last := if n < 10 then "" else Decimal(n / 10), '0' + (n % 10) as char;
    assert Decimal(n)[..|Decimal(n)| - 1] == front && Decimal(n)[|Decimal(n)| - 1] == last;
    if n >= 10 {
      DecimalValue(n / 10);
    }
  }

  /** A number with an optional sign. */
  function Atoi(s: string): Option<int> {
    var signed := s != "" && (s[0] == '-' || s[0] == '+');
    var digits := if signed then s[1..] else s;
    if digits == "" || !AllDigits(digits) then None
    else
      var magnitude: int := Value(digits);
      Some(if signed && s[0] == '-' then -magnitude else magnitude)
  }

  /** The white space of Unicode. */
  predicate IsSpace(c: char) {
    || c == ' ' || '\t' <= c <= '\r' || c == '\U{0085}' || c == '\U{00A0}'
    || c == '\U{1680}' || '\U{2000}' <= c <= '\U{200A}' || c == '\U{2028}' || c == '\U{2029}'
    || c == '\U{202F}' || c == '\U{205F}' || c == '\U{3000}'
  }

  function TrimSpace(s: string): string {
    if s == "" then ""
    else if IsSpace(s[0]) then TrimSpace(s[1..])
    else if IsSpace(s[|s| - 1]) then TrimSpace(s[..|s| - 1])
    else s
  }

  lemma DigitsAreTrimmed(s: string)
    requires s != "" && AllDigits(s)
    ensures TrimSpace(s) == s
  {
    assert IsDigit(s[0]) && IsDigit(s[|s| - 1]);
  }

  lemma DigitsAreNumber(s: string)
    requires s != "" && AllDigits(s)
    ensures Atoi(s) == Some(Value(s) as int)
  {
    assert IsDigit(s[0]);
  }

  /** Signs before a decimal number. */
  lemma SignedNumbers(n: nat)
    ensures Atoi("-" + Decimal(n)).Some? && Atoi("-" + Decimal(n)).value == -(n as int)
    ensures Atoi("+" + Decimal(n)).Some? && Atoi("+" + Decimal(n)).value == n
  {
    DecimalValue(n);
    assert ("-" + Decimal(n))[1..] == Decimal(n) && ("+" + Decimal(n))[1..] == Decimal(n);
  }

  predicate AllSpace(s: string) {
    forall i :: 0 <= i < |s| ==> IsSpace(s[i])
  }

  /** Trimming takes away the white space around a text that begins and ends with something else, and nothing more. */
  lemma {:induction false} TrimUndoesPadding(before: string, s: string, after: string)
    requires AllSpace(before) && AllSpace(after) && s != "" && !IsSpace(s[0]) && !IsSpace(s[|s| - 1])
    ensures TrimSpace(before + s + after) == s
    decreases |before| + |after|
  {
    var padded := before + s + after;
    if before != "" {
      assert padded[0] == before[0] && padded[1..] == before[1..] + s + after;
      TrimUndoesPadding(before[1..], s, after);
    } else if after != "" {
      assert padded[0] == s[0] && padded[|padded| - 1] == after[|after| - 1];
      assert padded[..|padded| - 1] == before + s + after[..|after| - 1];
      TrimUndoesPadding(before, s, after[..|after| - 1]);
    } else {
      assert padded == s;
    }
  }
}
