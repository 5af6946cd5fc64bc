/** The year-scoped serial numbers of the two "add defaulter" dialogs
    (`PROP/2025/007`, `BOP/2025/012`). Both dialogs run the same steps with
    a different tag, so the steps are written once here over the tag, and
    each dialog's module applies them to its own records.

    The new number takes the records whose number starts with
    `TAG/year/`, reads each one's serial with the pattern
    `/TAG\/\d+\/(\d+)/` (0 when it does not match), and adds one to the
    largest, zero-padded to at least three digits. */
module SerialNumbers {
  import opened Text

  /** `TAG/year/` */
  function Prefix(tag: string, year: nat): string {
    tag + "/" + NatToDecimal(year) + "/"
  }

  // ---------------------------------------------------------------------
  // The pattern TAG/\d+/(\d+)
  // ---------------------------------------------------------------------

  /** The length of the run of digits that starts at `i`. */
  function DigitRun(s: string, i: nat): (n: nat)
    requires i <= |s|
    ensures i + n <= |s|
    ensures forall k :: i <= k < i + n ==> IsDigit(s[k])
    ensures i + n == |s| || !IsDigit(s[i + n])
    decreases |s| - i
  {
    if i == |s| || !IsDigit(s[i]) then 0 else 1 + DigitRun(s, i + 1)
  }

  /** A run of digits is as long as the first non-digit after it lets it
      be. */
  lemma DigitRunIs(s: string, i: nat, n: nat)
    requires i + n <= |s|
    requires forall k :: i <= k < i + n ==> IsDigit(s[k])
    requires i + n == |s| || !IsDigit(s[i + n])
    ensures DigitRun(s, i) == n
  {
  }

  /** The captured serial when the pattern matches at position `p`. */
  function MatchAt(s: string, tag: string, p: nat): (g: Option<string>)
    requires p <= |s|
    ensures g.Some? ==> g.value != [] && AllDigits(g.value)
  {
    if !StartsWith(s[p..], tag + "/") then None else Capture(s, p + |tag + "/"|)
  }

  /** What `\d+\/(\d+)` captures from position `a` on. The first `\d+` has
      to be followed by `/`, which is not a digit, so only its longest run
      can match; the capture is the longest run too. */
  function Capture(s: string, a: nat): (g: Option<string>)
    requires a <= |s|
    ensures g.Some? ==> g.value != [] && AllDigits(g.value)
  {
    var n1 := DigitRun(s, a);
    var b := a + n1;
    if n1 == 0 || b == |s| || s[b] != '/' then None
    else
      var n2 := DigitRun(s, b + 1);
      if n2 == 0 then None else Some(s[b + 1..b + 1 + n2])
  }

  /** `s.match(pattern)`: the leftmost match at or after `p`. */
  function FirstMatch(s: string, tag: string, p: nat): (g: Option<string>)
    requires p <= |s|
    ensures g.Some? ==> g.value != [] && AllDigits(g.value)
    decreases |s| - p
  {
    if MatchAt(s, tag, p).Some? then MatchAt(s, tag, p)
    else if p == |s| then None
    else FirstMatch(s, tag, p + 1)
  }

  /** `FirstMatch` is the leftmost match: with a match at `q` and none
      between `p` and `q`, it is the one at `q`. */
  lemma {:induction false} FirstMatchIsLeftmost(s: string, tag: string, p: nat, q: nat)
    requires p <= q <= |s| && MatchAt(s, tag, q).Some?
    requires forall q' :: p <= q' < q ==> MatchAt(s, tag, q').None?
    ensures FirstMatch(s, tag, p) == MatchAt(s, tag, q)
    decreases q - p
  {
    if p < q {
      assert MatchAt(s, tag, p).None?;
      FirstMatchIsLeftmost(s, tag, p + 1, q);
    }
  }

  /** With no match at or after `p`, `FirstMatch` finds none. */
  lemma {:induction false} FirstMatchNone(s: string, tag: string, p: nat)
    requires p <= |s|
    requires forall q :: p <= q <= |s| ==> MatchAt(s, tag, q).None?
    ensures FirstMatch(s, tag, p).None?
    decreases |s| - p
  {
    assert MatchAt(s, tag, p).None?;
    if p < |s| {
      FirstMatchNone(s, tag, p + 1);
    }
  }

  /** `match ? parseInt(match[1], 10) : 0` */
  function SerialOf(s: string, tag: string): nat {
    var g := FirstMatch(s, tag, 0);
    if g.None? then 0 else DecimalValue(g.value)
  }

  /** The serial of a number is the value of the capture of the leftmost
      match. */
  lemma SerialOfLeftmostCapture(s: string, tag: string, q: nat)
    requires q <= |s| && MatchAt(s, tag, q).Some?
    requires forall q' :: 0 <= q' < q ==> MatchAt(s, tag, q').None?
    ensures SerialOf(s, tag) == DecimalValue(MatchAt(s, tag, q).value)
  {
    FirstMatchIsLeftmost(s, tag, 0, q);
  }

  /** A number the pattern matches nowhere has serial 0. */
  lemma SerialOfNoMatch(s: string, tag: string)
    requires forall q :: 0 <= q <= |s| ==> MatchAt(s, tag, q).None?
    ensures SerialOf(s, tag) == 0
  {
    FirstMatchNone(s, tag, 0);
  }

  // ---------------------------------------------------------------------
  // The next number
  // ---------------------------------------------------------------------

  /** The filter: the numbers that are strings and carry this year's
      prefix, in order. */
  function CurrentYear(existing: seq<Option<string>>, prefix: string): (r: seq<string>)
    ensures forall s :: s in r <==> Some(s) in existing && StartsWith(s, prefix)
  {
    if existing == [] then []
    else
      var rest := CurrentYear(existing[1..], prefix);
      assert forall x :: x in existing <==> x == existing[0] || x in existing[1..];
      if existing[0].Some? && StartsWith(existing[0].value, prefix) then [existing[0].value] + rest
      else rest
  }

  /** `Math.max(...serials, 0)` */
  function MaxSerial(numbers: seq<string>, tag: string): (m: nat)
    ensures forall s :: s in numbers ==> SerialOf(s, tag) <= m
    ensures m == 0 || exists s :: s in numbers && SerialOf(s, tag) == m
  {
    if numbers == [] then 0
    else
      var rest := MaxSerial(numbers[1..], tag);
      assert forall x :: x in numbers <==> x == numbers[0] || x in numbers[1..];
      if SerialOf(numbers[0], tag) >= rest then SerialOf(numbers[0], tag) else rest
  }

  /** `getNextSerialNumber()` with the clock's year as `year`: this year's
      prefix followed by at least three digits. */
  function NextSerialNumber(tag: string, year: nat, existing: seq<Option<string>>): (r: string)
    ensures StartsWith(r, Prefix(tag, year))
    ensures |r| >= |Prefix(tag, year)| + 3 && AllDigits(r[|Prefix(tag, year)|..])
  {
    var serial := NextSerial(CurrentYear(existing, Prefix(tag, year)), tag);
    var r := Prefix(tag, year) + serial;
    assert r[..|Prefix(tag, year)|] == Prefix(tag, year) && r[|Prefix(tag, year)|..] == serial;
    r
  }

  /** The serial part of the proposal: `001` for the first number of the
      year, else the largest serial plus one, padded. The `001` is that
      same rule at 0. */
  function NextSerial(current: seq<string>, tag: string): (serial: string)
    ensures serial == Padded(MaxSerial(current, tag) + 1)
  {
    if current == [] then
      PaddedOne();
      "001"
    else Padded(MaxSerial(current, tag) + 1)
  }

  /** The serial part of a number built from `m`: `m` written with at least
      three digits. */
  function Padded(m: nat): (r: string)
    ensures |r| >= 3 && AllDigits(r) && DecimalValue(r) == m
  {
    var d := NatToDecimal(m);
    var r := PadStart(d, 3, '0');
    LeadingZeros(|r| - |d|, d);
    DecimalRoundTrip(m);
    r
  }

  /** Reading back a number this generator writes yields its serial. */
  lemma ParseOwnNumber(tag: string, year: nat, serial: string)
    requires serial != [] && AllDigits(serial)
    ensures SerialOf(Prefix(tag, year) + serial, tag) == DecimalValue(serial)
  {
    var y := NatToDecimal(year);
    assert Prefix(tag, year) + serial == tag + "/" + y + "/" + serial;
    ParseNumber(tag, y, serial);
  }

  lemma ParseNumber(tag: string, y: string, serial: string)
    requires y != [] && AllDigits(y)
    requires serial != [] && AllDigits(serial)
    ensures SerialOf(tag + "/" + y + "/" + serial, tag) == DecimalValue(serial)
  {
    var head := tag + "/";
    var s := head + y + "/" + serial;
    assert s == tag + "/" + y + "/" + serial;
    var b := |head| + |y|;
    assert s[..|head|] == head;
    assert forall k :: |head| <= k < b ==> s[k] == y[k - |head|];
    assert s[b] == '/';
    assert forall k :: b + 1 <= k < |s| ==> s[k] == serial[k - b - 1];
    assert s[b + 1..] == serial;
    MatchesAtStart(s, tag, b);
  }

  /** The pattern matches at the first character of `s` when `s` is the
      tag, a slash, digits up to the slash at `b`, and digits to the end;
      the capture is the final digits. */
  lemma MatchesAtStart(s: string, tag: string, b: nat)
    requires StartsWith(s, tag + "/")
    requires |tag| + 1 < b < |s| - 1 && s[b] == '/'
    requires forall k :: |tag| + 1 <= k < b ==> IsDigit(s[k])
    requires forall k :: b < k < |s| ==> IsDigit(s[k])
    ensures MatchAt(s, tag, 0) == Some(s[b + 1..])
  {
    var a := |tag + "/"|;
    assert s[0..] == s;
    DigitRunIs(s, a, b - a);
    DigitRunIs(s, b + 1, |s| - b - 1);
    assert s[b + 1..b + 1 + (|s| - b - 1)] == s[b + 1..];
  }

  /** The number the generator proposes: this year's prefix, then a serial
      one above every serial already used this year, so it differs from
      every number of this year so far. */
  lemma NextIsFresh(tag: string, year: nat, existing: seq<Option<string>>)
    ensures var r := NextSerialNumber(tag, year, existing);
            var current := CurrentYear(existing, Prefix(tag, year));
            && StartsWith(r, Prefix(tag, year))
            && SerialOf(r, tag) == MaxSerial(current, tag) + 1
            && (forall s :: Some(s) in existing && StartsWith(s, Prefix(tag, year)) ==>
                  SerialOf(s, tag) < SerialOf(r, tag) && s != r)
  {
    var prefix := Prefix(tag, year);
    var current := CurrentYear(existing, prefix);
    var m := MaxSerial(current, tag);
    var r := NextSerialNumber(tag, year, existing);
    ParseOwnNumber(tag, year, Padded(m + 1));
    assert SerialOf(r, tag) == m + 1;
    forall s | Some(s) in existing && StartsWith(s, prefix)
      ensures SerialOf(s, tag) < SerialOf(r, tag) && s != r
    {
      assert s in current;
    }
  }

  lemma PaddedOne()
    ensures Padded(1) == "001"
  {
    assert NatToDecimal(1) == "1";
    assert Repeat('0', 2) == "00";
  }

  /** With no number of this year yet, the first is `TAG/year/001`. */
  lemma FirstOfTheYear(tag: string, year: nat, existing: seq<Option<string>>)
    requires forall s :: Some(s) in existing ==> !StartsWith(s, Prefix(tag, year))
    ensures NextSerialNumber(tag, year, existing) == Prefix(tag, year) + "001"
  {
  }

  /** Records without a number, or with another year's number, do not
      change the proposal. */
  lemma {:induction false} OtherYearsIgnored(tag: string, year: nat, existing: seq<Option<string>>, other: Option<string>)
    requires other.None? || !StartsWith(other.value, Prefix(tag, year))
    ensures NextSerialNumber(tag, year, [other] + existing) == NextSerialNumber(tag, year, existing)
  {
    var prefix := Prefix(tag, year);
    assert ([other] + existing)[1..] == existing;
    SkipsHead([other] + existing, prefix);
  }

  /** The filter passes over a first entry that is not this year's. */
  lemma SkipsHead(existing: seq<Option<string>>, prefix: string)
    requires existing != [] && (existing[0].None? || !StartsWith(existing[0].value, prefix))
    ensures CurrentYear(existing, prefix) == CurrentYear(existing[1..], prefix)
  {
  }
}

/** getNextSerialNumber of src/components/add-property-defaulter-dialog.tsx */
module PropertyDefaulterDialog {
  import opened Text
  import SerialNumbers

  /** A property record, reduced to its `Property No` field (`None` when it
      is not a string). */
  datatype Property = Property(propertyNo: Option<string>)

  const Tag := "PROP"

  function PropertyNumbers(existingProperties: seq<Property>): (r: seq<Option<string>>)
    ensures |r| == |existingProperties|
  {
    seq(|existingProperties|, i requires 0 <= i < |existingProperties| => existingProperties[i].propertyNo)
  }

  function GetNextSerialNumber(year: nat, existingProperties: seq<Property>): (r: string)
    ensures StartsWith(r, SerialNumbers.Prefix(Tag, year))
    ensures forall p :: p in existingProperties && p.propertyNo.Some? &&
                        StartsWith(p.propertyNo.value, SerialNumbers.Prefix(Tag, year)) ==>
              SerialNumbers.SerialOf(p.propertyNo.value, Tag) < SerialNumbers.SerialOf(r, Tag) &&
              p.propertyNo.value != r
  {
    var numbers := PropertyNumbers(existingProperties);
    SerialNumbers.NextIsFresh(Tag, year, numbers);
    assert forall p :: p in existingProperties ==> p.propertyNo in numbers by {
      forall p | p in existingProperties
        ensures p.propertyNo in numbers
      {
        var i :| 0 <= i < |existingProperties| && existingProperties[i] == p;
        assert numbers[i] == p.propertyNo;
      }
    }
    SerialNumbers.NextSerialNumber(Tag, year, numbers)
  }
}

/** getNextSerialNumber of src/components/add-bop-defaulter-dialog.tsx */
module BopDefaulterDialog {
  import opened Text
  import SerialNumbers

  /** A business-operating-permit record, reduced to its `BOP No` field
      (`None` when it is not a string). */
  datatype Bop = Bop(bopNo: Option<string>)

  const Tag := "BOP"

  function BopNumbers(existingBops: seq<Bop>): (r: seq<Option<string>>)
    ensures |r| == |existingBops|
  {
    seq(|existingBops|, i requires 0 <= i < |existingBops| => existingBops[i].bopNo)
  }

  function GetNextSerialNumber(year: nat, existingBops: seq<Bop>): (r: string)
    ensures StartsWith(r, SerialNumbers.Prefix(Tag, year))
    ensures forall b :: b in existingBops && b.bopNo.Some? &&
                        StartsWith(b.bopNo.value, SerialNumbers.Prefix(Tag, year)) ==>
              SerialNumbers.SerialOf(b.bopNo.value, Tag) < SerialNumbers.SerialOf(r, Tag) &&
              b.bopNo.value != r
  {
    var numbers := BopNumbers(existingBops);
    SerialNumbers.NextIsFresh(Tag, year, numbers);
    assert forall b :: b in existingBops ==> b.bopNo in numbers by {
      forall b | b in existingBops
        ensures b.bopNo in numbers
      {
        var i :| 0 <= i < |existingBops| && existingBops[i] == b;
        assert numbers[i] == b.bopNo;
      }
    }
    SerialNumbers.NextSerialNumber(Tag, year, numbers)
  }
}
