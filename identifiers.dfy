/**
 * Identifier service: human-readable record ids of the form
 * `<two-letter prefix><counter value><year>`, where the counter value comes
 * from the shared `Code` node (read, incremented, written back).
 */
module Identifiers {
  import opened Wrappers
  import opened Records

  const MinInt32: Int32 := -0x8000_0000
  const MaxInt32: Int32 := 0x7fff_ffff

  /** The twelve `generate...ID` functions, one per kind of record id. */
  datatype IdKind =
    | IndexNumber | ChatId | FcmId | AccountDeletionId | SharedPreferencesId | FeedbackId
    | AttendanceId | AnnouncementId | TimetableId | AssignmentId | ScreenTimeId | DayId

  function Prefix(kind: IdKind): string {
    match kind
    case IndexNumber => "CP"
    case ChatId => "CH"
    case FcmId => "FC"
    case AccountDeletionId => "AD"
    case SharedPreferencesId => "SP"
    case FeedbackId => "FB"
    case AttendanceId => "AT"
    case AnnouncementId => "AN"
    case TimetableId => "TT"
    case AssignmentId => "AS"
    case ScreenTimeId => "ST"
    case DayId => "DY"
  }

  /** Every prefix is two letters, and no two kinds share one. */
  lemma PrefixesDistinct(k1: IdKind, k2: IdKind)
    ensures |Prefix(k1)| == 2
    ensures Prefix(k1) == Prefix(k2) ==> k1 == k2
  {
  }

  // ---------------------------------------------------------------------
  // Decimal text of an Int, as a Kotlin string template renders it

  predicate IsDigit(c: char) {
    '0' <= c <= '9'
  }

  function DigitChar(d: nat): char
    requires d < 10
  {
    ('0' as int + d) as char
  }

  /** The decimal digits of `n`, most significant first, without leading zeros. */
  function NatToString(n: nat): (s: string)
    ensures |s| >= 1
    ensures forall i :: 0 <= i < |s| ==> IsDigit(s[i])
    decreases n
  {
    if n < 10 then [DigitChar(n)] else NatToString(n / 10) + [DigitChar(n % 10)]
  }

  /** The number a string of decimal digits denotes. */
  function DigitsValue(s: string): int {
    if |s| == 0 then 0 else 10 * DigitsValue(s[..|s| - 1]) + (s[|s| - 1] as int - '0' as int)
  }

  lemma {:induction false} NatToStringRoundTrip(n: nat)
    ensures DigitsValue(NatToString(n)) == n
    decreases n
  {
    var s := NatToString(n);
    if n >= 10 {
      NatToStringRoundTrip(n / 10);
      assert s[..|s| - 1] == NatToString(n / 10);
    } else {
      assert s[..|s| - 1] == [];
    }
  }

  /** `Int.toString()`: a minus sign before the digits of a negative number. */
  function IntToString(n: int): (s: string)
    ensures |s| >= 1
    ensures ParseInt(s) == n
  {
    if n < 0 then
      NatToStringRoundTrip(-n);
      assert ("-" + NatToString(-n))[1..] == NatToString(-n);
      "-" + NatToString(-n)
    else
      NatToStringRoundTrip(n);
      NatToString(n)
  }

  /** Reads back the decimal text of an Int. */
  function ParseInt(s: string): int {
    if |s| > 0 && s[0] == '-' then -DigitsValue(s[1..]) else DigitsValue(s)
  }

  /**
   * The id a `generate...ID` function reports for counter value `code`:
   * `"<prefix>$code$year"`. It starts with the kind's prefix, ends with the
   * year, and the counter value reads back from what lies between.
   */
  function FormatId(kind: IdKind, code: Int32, year: Int32): (id: string)
    ensures |id| == |Prefix(kind)| + |IntToString(code as int)| + |IntToString(year as int)|
    ensures id[..|Prefix(kind)|] == Prefix(kind)
    ensures id[|id| - |IntToString(year as int)|..] == IntToString(year as int)
    ensures ParseInt(id[|Prefix(kind)|..|id| - |IntToString(year as int)|]) == code as int
  {
    var p, c, y := Prefix(kind), IntToString(code as int), IntToString(year as int);
    assert (p + c + y)[|p|..|p + c + y| - |y|] == c;
    p + c + y
  }

  /** Ids for one year are distinct across kinds and across counter values. */
  lemma {:induction false} FormatIdInjective(k1: IdKind, c1: Int32, k2: IdKind, c2: Int32, year: Int32)
    ensures FormatId(k1, c1, year) == FormatId(k2, c2, year) ==> k1 == k2 && c1 == c2
  {
    var id1, id2 := FormatId(k1, c1, year), FormatId(k2, c2, year);
    if id1 == id2 {
      PrefixesDistinct(k1, k2);
      PrefixesDistinct(k2, k1);
      assert Prefix(k1) == id1[..2] == Prefix(k2);
    }
  }

  // ---------------------------------------------------------------------
  // The counter

  /** `code += 1` on a Kotlin Int: the largest value wraps to the smallest. */
  function WrappingInc(x: Int32): Int32 {
    if x == MaxInt32 then MinInt32 else x + 1
  }

  /**
   * The value `updateAndGetCode` writes and reports: 1 when the `Code` node
   * is absent, otherwise the stored code plus one.
   */
  function NextCode(stored: Option<Int32>): Int32 {
    match stored
    case None => 1
    case Some(c) => WrappingInc(c)
  }

  /** What `n` successive successful calls report, starting from the stored code `start`. */
  function ReportedCodes(start: Option<Int32>, n: nat): (r: seq<Int32>)
    ensures |r| == n
    decreases n
  {
    if n == 0 then [] else [NextCode(start)] + ReportedCodes(Some(NextCode(start)), n - 1)
  }

  function StartValue(start: Option<Int32>): int {
    match start
    case None => 0
    case Some(c) => c as int
  }

  /** Until the counter reaches the largest Int, call `i` reports the start value plus `i + 1`. */
  lemma {:induction false} ReportedCodesAscend(start: Option<Int32>, n: nat)
    requires StartValue(start) + n <= MaxInt32 as int
    ensures forall i :: 0 <= i < n ==> ReportedCodes(start, n)[i] as int == StartValue(start) + i + 1
    decreases n
  {
    if n > 0 {
      var c := NextCode(start);
      assert c as int == StartValue(start) + 1;
      ReportedCodesAscend(Some(c), n - 1);
      var r := ReportedCodes(start, n);
      assert r[1..] == ReportedCodes(Some(c), n - 1);
      forall i | 0 < i < n ensures r[i] as int == StartValue(start) + i + 1 {
        assert r[i] == r[1..][i - 1];
      }
    }
  }

  /**
   * Successive successful calls of one `generate...ID` function in one year
   * report pairwise distinct ids, as long as the counter does not pass the
   * largest Int.
   */
  lemma SuccessiveIdsDistinct(kind: IdKind, year: Int32, start: Option<Int32>, n: nat)
    requires StartValue(start) + n <= MaxInt32 as int
    ensures forall i, j :: 0 <= i < j < n ==>
      FormatId(kind, ReportedCodes(start, n)[i], year) != FormatId(kind, ReportedCodes(start, n)[j], year)
  {
    var r := ReportedCodes(start, n);
    ReportedCodesAscend(start, n);
    forall i, j | 0 <= i < j < n
      ensures FormatId(kind, r[i], year) != FormatId(kind, r[j], year)
    {
      FormatIdInjective(kind, r[i], kind, r[j], year);
    }
  }

  /** After the largest Int the counter wraps, so a later call can repeat an earlier id. */
  lemma CounterWrapsAtMaxInt()
    ensures ReportedCodes(Some(MaxInt32 - 1), 2) == [MaxInt32, MinInt32]
  {
  }
}
