/**
 * Date normalisation for the dashboard forms (src/lib/dateUtils.ts, and the smaller helper
 * each form declares for itself). Back-end date strings are mapped to the `YYYY-MM-DD`
 * shape of an RFC 3339 `full-date` (section 5.6); only the digit counts are checked,
 * never the ranges of month and day.
 */
module DateUtils {
  import opened Wrappers
  import Text

  /** The pattern `^\d{4}-\d{2}-\d{2}$`: four digits, `-`, two digits, `-`, two digits. */
  predicate IsDateShaped(s: string) {
    && |s| == 10
    && s[4] == '-' && s[7] == '-'
    && Text.IsDigit(s[0]) && Text.IsDigit(s[1]) && Text.IsDigit(s[2]) && Text.IsDigit(s[3])
    && Text.IsDigit(s[5]) && Text.IsDigit(s[6]) && Text.IsDigit(s[8]) && Text.IsDigit(s[9])
  }

  /** A date-shaped string holds only digits and dashes. */
  lemma DateShapedHasNoSlashOrT(s: string)
    requires IsDateShaped(s)
    ensures '/' !in s && 'T' !in s
  {
    forall i | 0 <= i < |s|
      ensures s[i] == '-' || Text.IsDigit(s[i])
    {
      assert i in {0, 1, 2, 3, 4, 5, 6, 7, 8, 9};
    }
  }

  /** `r` is the part of `s` before its first `T`. */
  predicate IsPrefixBeforeFirstT(r: string, s: string) {
    && r <= s
    && 'T' !in r
    && |r| < |s| && s[|r|] == 'T'
  }

  /** `dateString.split('T')[0]`. */
  function BeforeT(s: string): (r: string)
    ensures 'T' in s ==> IsPrefixBeforeFirstT(r, s)
    ensures 'T' !in s ==> r == s
  {
    Text.Split(s, 'T')[0]
  }

  /** The `YYYY/MM/DD` branch: year, then month and day left-padded with `0` to two characters. */
  function SlashedToDashed(year: string, month: string, day: string): string {
    year + "-" + Text.PadStart(month, 2, '0') + "-" + Text.PadStart(day, 2, '0')
  }

  /** `formatDateForInput`: the value an HTML date input receives. A missing or empty string
      gives `""`; a date-shaped string is kept; a string with a `T` is cut before it; a string
      of exactly three `/`-separated parts is rewritten with dashes and padding; anything else
      is kept as it is. */
  function FormatDateForInput(date: Option<string>): (r: string)
    ensures date.None? || date == Some("") ==> r == ""
    ensures date.Some? && IsDateShaped(date.value) ==> r == date.value
    ensures date.Some? && !IsDateShaped(date.value) && 'T' in date.value ==>
              IsPrefixBeforeFirstT(r, date.value)
    ensures date.Some? && 'T' !in date.value && |Text.Split(date.value, '/')| != 3 ==> r == date.value
  {
    match date
    case None => ""
    case Some(s) =>
      if s == "" then ""
      else if IsDateShaped(s) then s
      else if 'T' in s then BeforeT(s)
      else if '/' in s && |Text.Split(s, '/')| == 3 then
        var parts := Text.Split(s, '/');
        SlashedToDashed(parts[0], parts[1], parts[2])
      else s
  }

  /** A `Y/M/D` string without `T` becomes `Y-MM-DD`: month and day are padded to at least
      two characters and never truncated. */
  lemma SlashedInput(year: string, month: string, day: string)
    requires '/' !in year && '/' !in month && '/' !in day
    requires 'T' !in year && 'T' !in month && 'T' !in day
    ensures FormatDateForInput(Some(year + "/" + month + "/" + day)) == SlashedToDashed(year, month, day)
    ensures |SlashedToDashed(year, month, day)| >= |year| + 6
  {
    var s := year + "/" + month + "/" + day;
    SplitSlashed(year, month, day);
    assert 'T' !in s;
    assert s[|year|] == '/';
    if IsDateShaped(s) {
      DateShapedHasNoSlashOrT(s);
    }
    var parts := Text.Split(s, '/');
    assert FormatDateForInput(Some(s)) == SlashedToDashed(parts[0], parts[1], parts[2]);
  }

  /** A `Y/M/D` string whose parts hold no `/` splits into exactly those parts. */
  lemma SplitSlashed(year: string, month: string, day: string)
    requires '/' !in year && '/' !in month && '/' !in day
    ensures Text.Split(year + "/" + month + "/" + day, '/') == [year, month, day]
  {
    var rest := month + ['/'] + day;
    assert year + "/" + month + "/" + day == year + ['/'] + rest;
    Text.SplitAfterPrefix(month, day, '/');
    Text.SplitAfterPrefix(year, rest, '/');
  }

  /** `formatDateForAPI`: the date sent to the back end, or `null` for a missing or empty
      string. Unlike `FormatDateForInput`, slashes are handled before `T`, and they are only
      replaced, never padded. */
  function FormatDateForApi(date: Option<string>): (r: Option<string>)
    ensures r.None? <==> date.None? || date == Some("")
    ensures date.Some? && IsDateShaped(date.value) ==> r == date
    ensures date.Some? && !IsDateShaped(date.value) && '/' in date.value ==>
              && r.Some? && |r.value| == |date.value| && '/' !in r.value
              && forall i | 0 <= i < |date.value| ::
                   r.value[i] == if date.value[i] == '/' then '-' else date.value[i]
    ensures date.Some? && !IsDateShaped(date.value) && '/' !in date.value && 'T' in date.value ==>
              r.Some? && IsPrefixBeforeFirstT(r.value, date.value)
    ensures date.Some? && date.value != "" && '/' !in date.value && 'T' !in date.value ==> r == date
  {
    match date
    case None => None
    case Some(s) =>
      if s == "" then None
      else if IsDateShaped(s) then Some(s)
      else if '/' in s then Some(Text.ReplaceChar(s, '/', '-'))
      else if 'T' in s then Some(BeforeT(s))
      else Some(s)
  }

  /** A date-shaped string is a fixed point of both functions. */
  lemma DateShapedIsFixedPoint(s: string)
    requires IsDateShaped(s)
    ensures FormatDateForInput(Some(s)) == s
    ensures FormatDateForApi(Some(s)) == Some(s)
    ensures FormatDateForInput(Some(FormatDateForInput(Some(s)))) == FormatDateForInput(Some(s))
  {
  }

  /** The two functions test their branches in different orders. With both `T` and `/`
      present the input form cuts at `T`, while the API form rewrites the slashes and keeps
      the time part, so what it sends is not date-shaped. */
  lemma BranchOrderDiffers(s: string)
    requires 'T' in s && '/' in s
    ensures FormatDateForInput(Some(s)) == BeforeT(s)
    ensures FormatDateForApi(Some(s)) == Some(Text.ReplaceChar(s, '/', '-'))
    ensures 'T' in FormatDateForApi(Some(s)).value
    ensures !IsDateShaped(FormatDateForApi(Some(s)).value)
  {
    if IsDateShaped(s) {
      DateShapedHasNoSlashOrT(s);
    }
    var r := Text.ReplaceChar(s, '/', '-');
    var i :| 0 <= i < |s| && s[i] == 'T';
    assert r[i] == 'T';
    if IsDateShaped(r) {
      DateShapedHasNoSlashOrT(r);
    }
  }

  /** The helper each dashboard form declares for itself: `''` for a missing or empty value,
      otherwise the text before the first `T` (the whole string when there is none). */
  function FormDateValue(date: Option<string>): (r: string)
    ensures date.None? || date == Some("") ==> r == ""
    ensures date.Some? && 'T' in date.value ==> IsPrefixBeforeFirstT(r, date.value)
    ensures date.Some? && 'T' !in date.value ==> r == date.value
  {
    match date
    case None => ""
    case Some(s) => if s == "" then "" else BeforeT(s)
  }

  /** The forms' helper agrees with `FormatDateForInput` on date-shaped and ISO-style input. */
  lemma FormHelperAgreement(s: string)
    requires IsDateShaped(s) || 'T' in s
    ensures FormDateValue(Some(s)) == FormatDateForInput(Some(s))
  {
    if IsDateShaped(s) {
      DateShapedHasNoSlashOrT(s);
    }
  }

  /** On a slashed date the two differ: the forms' helper leaves it untouched, while
      `FormatDateForInput` puts a dash where the first slash was. */
  lemma FormHelperKeepsSlashes(year: string, month: string, day: string)
    requires '/' !in year && '/' !in month && '/' !in day
    requires 'T' !in year && 'T' !in month && 'T' !in day
    ensures FormDateValue(Some(year + "/" + month + "/" + day)) == year + "/" + month + "/" + day
    ensures FormatDateForInput(Some(year + "/" + month + "/" + day)) != year + "/" + month + "/" + day
  {
    var s := year + "/" + month + "/" + day;
    SlashedInput(year, month, day);
    var r := SlashedToDashed(year, month, day);
    assert r[|year|] == '-';
    assert s[|year|] == '/';
  }
}
