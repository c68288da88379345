/** The configured list of payload offsets of the socket selector (reuseport_hash.go). */
module HashOffsets {
  import opened Options
  import opened Strings
  import opened ReusePort

  const MAX_OFFSETS := 8

  predicate Distinct(offsets: seq<int>) {
    forall i, j :: 0 <= i < j < |offsets| ==> offsets[i] != offsets[j]
  }

  /** The lists a configuration may hold. */
  predicate Accepted(offsets: seq<int>) {
    1 <= |offsets| <= MAX_OFFSETS && AllInRange(offsets) && Distinct(offsets)
  }

  /** The number written in one part of the list. */
  function OffsetOf(part: string): Option<int> {
    Atoi(TrimSpace(part))
  }

  /** The list a text spells, in order. */
  predicate Spells(text: string, offsets: seq<int>) {
    var parts := Split(text, ',');
    |parts| == |offsets| && forall i :: 0 <= i < |parts| ==> OffsetOf(parts[i]) == Some(offsets[i])
  }

  /** One part of the list. */
  method ParseOffset(part: string) returns (r: Option<int>)
    ensures r.Some? <==> OffsetOf(part).Some? && InRange(OffsetOf(part).value)
    ensures r.Some? ==> r == OffsetOf(part)
  {
    var trimmed := TrimSpace(part);
    if trimmed == "" {
      return None;
    }
    r := Atoi(trimmed);
    if r.Some? && (r.value < 0 || r.value > MAX_UDP_PACKET_SIZE - 4) {
      r := None;
    }
  }

  lemma BadPart(text: string, i: nat, offsets: seq<int>)
    requires i < |Split(text, ',')| && Spells(text, offsets)
    requires var offset := OffsetOf(Split(text, ',')[i]); offset.None? || !InRange(offset.value)
    ensures !Accepted(offsets)
  {
    assert OffsetOf(Split(text, ',')[i]) == Some(offsets[i]);
  }

  lemma RepeatedPart(text: string, k: nat, i: nat, offsets: seq<int>)
    requires k < i < |Split(text, ',')| && Spells(text, offsets)
    requires OffsetOf(Split(text, ',')[k]) == OffsetOf(Split(text, ',')[i])
    ensures !Accepted(offsets)
  {
    assert OffsetOf(Split(text, ',')[i]) == Some(offsets[i]) && OffsetOf(Split(text, ',')[k]) == Some(offsets[k]);
  }

  /** The first `i` parts spell `offsets`, in range and different; `seen` holds the same numbers. */
  ghost predicate Collected(text: string, i: nat, offsets: seq<int>, seen: set<int>)
    requires i <= |Split(text, ',')|
  {
    && |offsets| == i && AllInRange(offsets) && Distinct(offsets)
    && (forall x :: x in seen <==> x in offsets)
    && forall k :: 0 <= k < i ==> OffsetOf(Split(text, ',')[k]) == Some(offsets[k])
  }

  lemma CollectedOneMore(text: string, i: nat, offsets: seq<int>, seen: set<int>, offset: int)
    requires i < |Split(text, ',')| && Collected(text, i, offsets, seen)
    requires offset !in seen && InRange(offset) && OffsetOf(Split(text, ',')[i]) == Some(offset)
    ensures Collected(text, i + 1, offsets + [offset], seen + {offset})
  {
  }

  lemma SeenBefore(text: string, i: nat, offsets: seq<int>, seen: set<int>, offset: int)
    requires i < |Split(text, ',')| && Collected(text, i, offsets, seen)
    requires offset in seen && OffsetOf(Split(text, ',')[i]) == Some(offset)
    ensures forall others :: Spells(text, others) ==> !Accepted(others)
  {
    var k :| 0 <= k < i && offsets[k] == offset;
    forall others | Spells(text, others) ensures !Accepted(others) {
      RepeatedPart(text, k, i, others);
    }
  }

  /** A text is accepted exactly when it spells an acceptable list, and then gives that list. */
  method ParseReusePortHashOffsets(text: string) returns (r: Option<seq<int>>)
    ensures r.Some? ==> Accepted(r.value) && Spells(text, r.value)
    ensures r.Some? ==> 1 <= |r.value| <= 8 && forall i :: 0 <= i < |r.value| ==> 0 <= r.value[i] <= 65531
    ensures r.None? ==> forall offsets :: Spells(text, offsets) ==> !Accepted(offsets)
  {
    var parts := Split(text, ',');
    if |parts| == 0 || |parts| > MAX_OFFSETS {
      return None;
    }
    var offsets: seq<int> := [];
    var seen: set<int> := {};
    for i := 0 to |parts|
      invariant Collected(text, i, offsets, seen)
    {
      var offset := ParseOffset(parts[i]);
      if offset.None? {
        forall others | Spells(text, others) ensures !Accepted(others) {
          BadPart(text, i, others);
        }
        return None;
      }
      if offset.value in seen {
        SeenBefore(text, i, offsets, seen, offset.value);
        return None;
      }
      CollectedOneMore(text, i, offsets, seen, offset.value);
      seen := seen + {offset.value};
      offsets := offsets + [offset.value];
    }
    WithinLimits(offsets);
    r := Some(offsets);
  }

  lemma WithinLimits(offsets: seq<int>)
    requires AllInRange(offsets)
    ensures forall i :: 0 <= i < |offsets| ==> 0 <= offsets[i] <= 65531
  {
    forall i | 0 <= i < |offsets| ensures 0 <= offsets[i] <= 65531 {
      assert InRange(offsets[i]);
    }
  }

  function Format(offsets: seq<int>): string
    requires AllInRange(offsets)
  {
    Join(Decimals(offsets), ',')
  }

  function Decimals(offsets: seq<int>): seq<string>
    requires AllInRange(offsets)
  {
    seq(|offsets|, i requires 0 <= i < |offsets| => assert InRange(offsets[i]); Decimal(offsets[i]))
  }

  lemma DecimalIsOffset(n: nat)
    ensures OffsetOf(Decimal(n)) == Some(n)
  {
    DecimalValue(n);
    DigitsAreTrimmed(Decimal(n));
    DigitsAreNumber(Decimal(n));
  }

  /** A formatted list spells itself and nothing else, so parsing a formatted list gives it back. */
  lemma FormatSpells(offsets: seq<int>, others: seq<int>)
    requires AllInRange(offsets) && offsets != []
    ensures Spells(Format(offsets), others) <==> others == offsets
  {
    var parts := Decimals(offsets);
    forall i | 0 <= i < |parts| ensures ',' !in parts[i] && OffsetOf(parts[i]) == Some(offsets[i]) {
      assert InRange(offsets[i]);
      DecimalIsOffset(offsets[i]);
    }
    SplitJoin(parts, ',');
    if Spells(Format(offsets), others) {
      forall i | 0 <= i < |others| ensures others[i] == offsets[i] {
        assert OffsetOf(parts[i]) == Some(others[i]);
      }
    }
  }
}
