/** Table names: what both programs accept, and what the collector builds (main.go,
    reprocesador/clickhouse_schema.go). */
module TableNames {
  import opened Strings

  predicate IsLetter(c: char) {
    'a' <= c <= 'z' || 'A' <= c <= 'Z'
  }

  predicate ValidIdentifier(s: string) {
    && s != ""
    && (IsLetter(s[0]) || s[0] == '_')
    && forall i :: 0 < i < |s| ==> IsLetter(s[i]) || IsDigit(s[i]) || s[i] == '_'
  }

  const UPPER := "ABCDEFGHIJKLMNOPQRSTUVWXYZ"

  const LOWER := "abcdefghijklmnopqrstuvwxyz"

  const DIGITS := "0123456789"

  predicate Listed(c: char) {
    c in UPPER || c in LOWER || c == '_'
  }

  lemma UpperIsRange(c: char)
    ensures c in UPPER <==> 'A' <= c <= 'Z'
  {
    if 'A' <= c <= 'Z' {
      assert UPPER[(c - 'A') as int] == c;
    }
  }

  lemma LowerIsRange(c: char)
    ensures c in LOWER <==> 'a' <= c <= 'z'
  {
    if 'a' <= c <= 'z' {
      assert LOWER[(c - 'a') as int] == c;
    }
  }

  lemma DigitsAreRange(c: char)
    ensures c in DIGITS <==> '0' <= c <= '9'
  {
    if '0' <= c <= '9' {
      assert DIGITS[(c - '0') as int] == c;
    }
  }

  /** Letters and the underscore, and digits but at the start. */
  lemma IdentifiersAreSpelled(s: string)
    ensures ValidIdentifier(s)
      <==> s != "" && Listed(s[0]) && forall i :: 0 <= i < |s| ==> Listed(s[i]) || s[i] in DIGITS
  {
    forall i | 0 <= i < |s|
      ensures Listed(s[i]) <==> IsLetter(s[i]) || s[i] == '_'
      ensures s[i] in DIGITS <==> IsDigit(s[i])
    {
      UpperIsRange(s[i]);
      LowerIsRange(s[i]);
      DigitsAreRange(s[i]);
    }
  }

  predicate ValidTableName(s: string) {
    var parts := Split(s, '.');
    |parts| <= 2 && forall i :: 0 <= i < |parts| ==> ValidIdentifier(parts[i])
  }

  lemma Joined(a: string, b: string)
    ensures Join([a, b], '.') == a + "." + b
  {
    assert [a, b][..1] == [a] && Join([a], '.') == a;
  }

  lemma IdentifiersHaveNoDot(s: string)
    requires ValidIdentifier(s)
    ensures '.' !in s
  {
  }

  /** The accepted names: an identifier, or two of them with a dot between. */
  lemma ValidNamesSpell(s: string)
    ensures ValidTableName(s)
      <==> ValidIdentifier(s) || exists a, b :: ValidIdentifier(a) && ValidIdentifier(b) && s == a + "." + b
  {
    JoinSplit(s, '.');
    var parts := Split(s, '.');
    if ValidTableName(s) {
      if |parts| == 1 {
        assert Join(parts, '.') == parts[0];
      } else {
        Joined(parts[0], parts[1]);
        assert parts == [parts[0], parts[1]];
        assert ValidIdentifier(parts[0]) && ValidIdentifier(parts[1]) && s == parts[0] + "." + parts[1];
      }
    }
    if ValidIdentifier(s) {
      IdentifiersHaveNoDot(s);
      SplitJoin([s], '.');
      assert Join([s], '.') == s;
    }
    if a, b :| ValidIdentifier(a) && ValidIdentifier(b) && s == a + "." + b {
      IdentifiersHaveNoDot(a);
      IdentifiersHaveNoDot(b);
      Joined(a, b);
      SplitJoin([a, b], '.');
    }
  }

  /** A formatted day, such as 2024_05_01. */
  predicate IsDay(s: string) {
    forall i :: 0 <= i < |s| ==> IsDigit(s[i]) || s[i] == '_'
  }

  function DailyTableName(base: string, daily: bool, day: string): string {
    if !daily then base
    else
      var parts := Split(base, '.');
      if |parts| == 2 then parts[0] + "." + parts[1] + "_" + day else base + "_" + day
  }

  /** Both ways the collector adds the day give the same name. */
  lemma DayIsAppended(base: string, day: string)
    ensures DailyTableName(base, true, day) == base + "_" + day
  {
    JoinSplit(base, '.');
    var parts := Split(base, '.');
    if |parts| == 2 {
      assert parts[..1] == [parts[0]] && Join([parts[0]], '.') == parts[0];
      assert (parts[0] + "." + parts[1] + "_") + day == parts[0] + "." + parts[1] + "_" + day;
    }
  }

  /** Daily names of a valid base are valid for both programs. */
  lemma DailyNameStaysValid(base: string, daily: bool, day: string)
    requires ValidTableName(base) && IsDay(day)
    ensures ValidTableName(DailyTableName(base, daily, day))
  {
    if daily {
      DayIsAppended(base, day);
      var suffix, parts := "_" + day, Split(base, '.');
      SuffixLengthensLastPart(base, suffix, '.');
      assert base + "_" + day == base + suffix;
      forall i | 0 <= i < |parts| ensures ValidIdentifier(Split(base + suffix, '.')[i]) {
        assert ValidIdentifier(parts[i]);
      }
    }
  }

  /** Different days of one base are different tables. */
  lemma DaysHaveTheirOwnTables(base: string, a: string, b: string)
    ensures DailyTableName(base, true, a) == DailyTableName(base, true, b) <==> a == b
  {
    DayIsAppended(base, a);
    DayIsAppended(base, b);
    var prefix := base + "_";
    assert (prefix + a)[|prefix|..] == a && (prefix + b)[|prefix|..] == b;
  }
}
