/**
 * The image and slug helpers of src/lib/fileUpload.ts: validation of a chosen image, the
 * collision-free file name an upload is stored under, and the URL slug of a title.
 * The clock and the random suffix of the file name are parameters.
 */
module FileUpload {
  import opened Wrappers
  import Text
  import Seqs

  /** Five mebibytes. */
  const MaxFileSize: nat := 5 * 1024 * 1024

  /** The MIME types an image upload may have. */
  const AllowedImageTypes: seq<string> := ["image/jpeg", "image/jpg", "image/png", "image/webp", "image/gif"]

  const NoFileMessage := "No file selected"
  const WrongTypeMessage := "Invalid file type. Please upload JPG, PNG, WebP, or GIF images."

  /** The size error names the limit in mebibytes. */
  function TooLargeMessage(): string {
    "File size exceeds " + Text.NatToDecimal(MaxFileSize / 1024 / 1024) + "MB limit."
  }

  /** A file chosen in the browser: its name, its MIME type and its size in bytes. */
  datatype File = File(name: string, mimeType: string, size: nat)

  /** The validator's verdict: valid, or invalid with a message for the user. */
  datatype Validation = Valid | Invalid(error: string)

  /** `validateImageFile`: the checks run in order: presence, then type, then size. */
  function ValidateImageFile(file: Option<File>): (r: Validation)
    ensures r.Valid? <==>
              file.Some? && file.value.mimeType in AllowedImageTypes && file.value.size <= MaxFileSize
    ensures file.None? ==> r == Invalid(NoFileMessage)
    ensures file.Some? && file.value.mimeType !in AllowedImageTypes ==> r == Invalid(WrongTypeMessage)
    ensures file.Some? && file.value.mimeType in AllowedImageTypes && file.value.size > MaxFileSize ==>
              r == Invalid(TooLargeMessage())
  {
    match file
    case None => Invalid(NoFileMessage)
    case Some(f) =>
      if f.mimeType !in AllowedImageTypes then Invalid(WrongTypeMessage)
      else if f.size > MaxFileSize then Invalid(TooLargeMessage())
      else Valid
  }

  /** The limit is 5242880 bytes, a file of exactly that size passes, and the message says 5MB. */
  lemma SizeLimit(name: string, mimeType: string)
    requires mimeType in AllowedImageTypes
    ensures ValidateImageFile(Some(File(name, mimeType, 5242880))) == Valid
    ensures ValidateImageFile(Some(File(name, mimeType, 5242881))) == Invalid("File size exceeds 5MB limit.")
  {
    assert Text.NatToDecimal(5) == "5";
  }

  /** A wrong type is reported even when the file is also too large. */
  lemma TypeCheckedBeforeSize(f: File)
    requires f.mimeType !in AllowedImageTypes && f.size > MaxFileSize
    ensures ValidateImageFile(Some(f)) == Invalid(WrongTypeMessage)
  {
  }

  /** `name.split('.').pop()`: the text after the last `.`, or the whole name without one. */
  function Extension(name: string): (r: string)
    ensures '.' !in r
    ensures '.' !in name ==> r == name
  {
    var parts := Text.Split(name, '.');
    parts[|parts| - 1]
  }

  /** `name.split('.').slice(0, -1).join('.')`: the text before the last `.`, or `""` without one. */
  function BaseName(name: string): (r: string)
    ensures '.' !in name ==> r == ""
  {
    var parts := Text.Split(name, '.');
    Text.Join(parts[..|parts| - 1], ".")
  }

  /** A name with a `.` is its base name, a `.` and its extension. */
  lemma NameParts(name: string)
    requires '.' in name
    ensures BaseName(name) + "." + Extension(name) == name
  {
    var parts := Text.Split(name, '.');
    Text.JoinSnoc(parts, ".");
  }

  /** A name whose only `.` is the one before its extension splits there. */
  lemma NamePartsOf(base: string, ext: string)
    requires '.' !in base && '.' !in ext
    ensures BaseName(base + "." + ext) == base
    ensures Extension(base + "." + ext) == ext
  {
    Text.SplitAfterPrefix(base, ext, '.');
    assert Text.Split(base + "." + ext, '.') == [base, ext];
  }

  /** The characters a stored file name keeps: `[a-zA-Z0-9-_]`. */
  predicate IsNameChar(c: char) {
    Text.IsAsciiUpper(c) || Text.IsAsciiLower(c) || Text.IsDigit(c) || c == '-' || c == '_'
  }

  /** What a sanitised name consists of: `[a-z0-9_-]`. */
  predicate IsSafeChar(c: char) {
    Text.IsAsciiLower(c) || Text.IsDigit(c) || c == '-' || c == '_'
  }

  /** `replace(/[^a-zA-Z0-9-_]/g, '-').toLowerCase()`: one output character per input
      character, every one of them safe. */
  function SafeName(s: string): (r: string)
    ensures |r| == |s|
    ensures forall i | 0 <= i < |r| :: IsSafeChar(r[i])
    ensures forall i | 0 <= i < |s| :: IsNameChar(s[i]) ==> r[i] == Text.LowerChar(s[i])
    ensures forall i | 0 <= i < |s| :: !IsNameChar(s[i]) ==> r[i] == '-'
  {
    Text.ToLower(seq(|s|, i requires 0 <= i < |s| => if IsNameChar(s[i]) then s[i] else '-'))
  }

  /** A name that is already safe is kept as it is. */
  lemma SafeNameOfSafe(s: string)
    requires forall i | 0 <= i < |s| :: IsSafeChar(s[i])
    ensures SafeName(s) == s
  {
  }

  /** `generateUniqueFilename`, given the millisecond clock and the random suffix. */
  function UniqueFilename(original: string, timestamp: nat, random: string): (r: string)
  {
    SafeName(BaseName(original)) + "-" + Text.NatToDecimal(timestamp) + "-" + random + "." + Extension(original)
  }

  /** The stored name keeps the extension of the original, and its base name starts with the
      sanitised base name of the original followed by the timestamp. The random suffix is
      base-36 digits, so it holds no `.`. */
  lemma UniqueFilenameParts(original: string, timestamp: nat, random: string)
    requires '.' !in random
    ensures Extension(UniqueFilename(original, timestamp, random)) == Extension(original)
    ensures BaseName(UniqueFilename(original, timestamp, random)) ==
              SafeName(BaseName(original)) + "-" + Text.NatToDecimal(timestamp) + "-" + random
    ensures '.' !in original ==>
              BaseName(UniqueFilename(original, timestamp, random)) == "-" + Text.NatToDecimal(timestamp) + "-" + random
  {
    var safe := SafeName(BaseName(original));
    var stamp := Text.NatToDecimal(timestamp);
    var base := safe + "-" + stamp + "-" + random;
    NoDotIn(BaseName(original), timestamp, random);
    NamePartsOf(base, Extension(original));
    assert UniqueFilename(original, timestamp, random) == base + "." + Extension(original);
  }

  /** The stored base name holds no `.`: the sanitised name and the digits cannot. */
  lemma NoDotIn(name: string, timestamp: nat, random: string)
    requires '.' !in random
    ensures '.' !in SafeName(name) + "-" + Text.NatToDecimal(timestamp) + "-" + random
  {
    var safe := SafeName(name);
    var stamp := Text.NatToDecimal(timestamp);
    assert '.' !in safe by {
      forall k | 0 <= k < |safe| ensures safe[k] != '.' { assert IsSafeChar(safe[k]); }
    }
    assert '.' !in stamp by {
      forall k | 0 <= k < |stamp| ensures stamp[k] != '.' { assert Text.IsDigit(stamp[k]); }
    }
  }

  /** `uploadProjectImage`: the validator's error, or the public path of the stored name. */
  function UploadProjectImage(file: Option<File>, timestamp: nat, random: string): (r: Result<string, string>)
    ensures r.Success? <==> ValidateImageFile(file).Valid?
    ensures r.Failure? ==> r.error == ValidateImageFile(file).error
    ensures r.Success? ==> r.value == "/uploads/projects/" + UniqueFilename(file.value.name, timestamp, random)
  {
    match ValidateImageFile(file)
    case Invalid(e) => Failure(e)
    case Valid => Success("/uploads/projects/" + UniqueFilename(file.value.name, timestamp, random))
  }

  // ---------------------------------------------------------------------------------------
  // Slugs

  /** The regular-expression class `\w`: `[A-Za-z0-9_]`. */
  predicate IsWordChar(c: char) {
    Text.IsAsciiUpper(c) || Text.IsAsciiLower(c) || Text.IsDigit(c) || c == '_'
  }

  /** The class `[\s_-]` whose runs become one `-`. */
  predicate IsSeparator(c: char) {
    Text.IsSpace(c) || c == '_' || c == '-'
  }

  /** What a slug is made of, and the letters and digits it carries. */
  predicate IsSlugAlnum(c: char) {
    Text.IsAsciiLower(c) || Text.IsDigit(c)
  }

  lemma SeparatorIsNotAlnum(c: char)
    requires IsSeparator(c)
    ensures !IsSlugAlnum(c)
  {
  }

  /** No two dashes in a row. */
  predicate NoDoubleDash(s: string) {
    forall i | 0 <= i < |s| - 1 :: s[i] == '-' ==> s[i + 1] != '-'
  }

  /** A slug: lower-case letters, digits and single dashes, with no dash at either end. */
  predicate IsSlug(s: string) {
    && (forall i | 0 <= i < |s| :: IsSlugAlnum(s[i]) || s[i] == '-')
    && NoDoubleDash(s)
    && (s == [] || (s[0] != '-' && s[|s| - 1] != '-'))
  }

  /** A character the first replacement keeps: in `\w`, in `\s`, or `-`. */
  predicate Kept(c: char) {
    IsWordChar(c) || Text.IsSpace(c) || c == '-'
  }

  /** `replace(/[^\w\s-]/g, '')`: every character outside `\w`, `\s` and `-` is deleted, and
      the others stay, in order. */
  function RemoveSpecial(s: string): (r: string)
    ensures forall i | 0 <= i < |r| :: (IsWordChar(r[i]) || Text.IsSpace(r[i]) || r[i] == '-') && r[i] in s
    ensures (forall i | 0 <= i < |s| :: IsWordChar(s[i]) || Text.IsSpace(s[i]) || s[i] == '-') ==> r == s
    ensures r == Seqs.Filter(s, Kept)
    decreases |s|
  {
    if |s| == 0 then ""
    else
      var rest := RemoveSpecial(s[1..]);
      if IsWordChar(s[0]) || Text.IsSpace(s[0]) || s[0] == '-' then [s[0]] + rest else rest
  }

  /** The leading run of separators removed. */
  function DropSeparators(s: string): (r: string)
    ensures |r| <= |s|
    ensures r == s[|s| - |r|..]
    ensures forall k | 0 <= k < |s| - |r| :: IsSeparator(s[k])
    ensures r == [] || !IsSeparator(r[0])
    decreases |s|
  {
    if |s| > 0 && IsSeparator(s[0]) then DropSeparators(s[1..]) else s
  }

  predicate NotSeparator(c: char) {
    !IsSeparator(c)
  }

  predicate NotDash(c: char) {
    c != '-'
  }

  /** `replace(/[\s_-]+/g, '-')`: each maximal run of separators becomes one dash; the
      characters other than separators stay, in order. */
  function CollapseSeparators(s: string): (r: string)
    ensures r == [] <==> s == []
    ensures r != [] ==> (r[0] == '-' <==> IsSeparator(s[0]))
    ensures forall i | 0 <= i < |r| :: r[i] == '-' || (r[i] in s && !IsSeparator(r[i]))
    ensures NoDoubleDash(r)
    ensures Seqs.Filter(r, NotDash) == Seqs.Filter(s, NotSeparator)
    decreases |s|
  {
    if |s| == 0 then ""
    else if IsSeparator(s[0]) then
      var d := DropSeparators(s[1..]);
      var rest := CollapseSeparators(d);
      SuffixMembers(s, d);
      ConsDash(s, '-', rest);
      DroppedRunFilter(s);
      assert ("-" + rest)[1..] == rest;
      "-" + rest
    else
      var rest := CollapseSeparators(s[1..]);
      SuffixMembers(s, s[1..]);
      ConsDash(s, s[0], rest);
      assert ([s[0]] + rest)[1..] == rest;
      [s[0]] + rest
  }

  /** A run of separators at the front, however long, contributes nothing but separators. */
  lemma {:induction false} DroppedRunFilter(s: string)
    requires |s| > 0 && IsSeparator(s[0])
    ensures Seqs.Filter(s, NotSeparator) == Seqs.Filter(DropSeparators(s[1..]), NotSeparator)
    decreases |s|
  {
    var t := s[1..];
    if |t| > 0 && IsSeparator(t[0]) {
      DroppedRunFilter(t);
    }
  }

  /** The replacement as a scan from the left, the way a regular-expression engine applies
      it: a character other than a separator is copied, the first separator of a run gives
      one dash, and the rest of the run gives nothing. */
  function CollapseScan(s: string, inRun: bool): string
    decreases |s|
  {
    if |s| == 0 then ""
    else
      (if !IsSeparator(s[0]) then [s[0]] else if inRun then "" else "-") + CollapseScan(s[1..], IsSeparator(s[0]))
  }

  /** Collapsing agrees with the scan, started outside a run. */
  lemma {:induction false} CollapseIsScan(s: string)
    ensures CollapseSeparators(s) == CollapseScan(s, false)
    decreases |s|
  {
    if |s| > 0 {
      if IsSeparator(s[0]) {
        var d := DropSeparators(s[1..]);
        ScanInRun(s[1..]);
        CollapseIsScan(d);
        assert CollapseScan(s, false) == "-" + CollapseScan(s[1..], true);
      } else {
        CollapseIsScan(s[1..]);
        assert CollapseScan(s, false) == [s[0]] + CollapseScan(s[1..], false);
      }
    }
  }

  /** Inside a run, the scan skips the rest of the run and carries on outside it. */
  lemma {:induction false} ScanInRun(t: string)
    ensures CollapseScan(t, true) == CollapseScan(DropSeparators(t), false)
    decreases |t|
  {
    if |t| > 0 {
      if IsSeparator(t[0]) {
        ScanInRun(t[1..]);
        assert CollapseScan(t, true) == "" + CollapseScan(t[1..], true);
      } else {
        assert CollapseScan(t, true) == [t[0]] + CollapseScan(t[1..], false);
      }
    }
  }

  /** Putting a character in front of a collapsed piece keeps it collapsed, provided no
      second dash is formed. */
  lemma ConsDash(s: string, c: char, rest: string)
    requires c == '-' || (c in s && !IsSeparator(c))
    requires forall i | 0 <= i < |rest| :: rest[i] == '-' || (rest[i] in s && !IsSeparator(rest[i]))
    requires NoDoubleDash(rest)
    requires c == '-' ==> rest == [] || rest[0] != '-'
    ensures forall i | 0 <= i < |[c] + rest| :: ([c] + rest)[i] == '-' || (([c] + rest)[i] in s && !IsSeparator(([c] + rest)[i]))
    ensures NoDoubleDash([c] + rest)
  {
    var r := [c] + rest;
    assert forall i | 1 <= i < |r| :: r[i] == rest[i - 1];
  }

  /** The characters of a suffix are characters of the whole. */
  lemma SuffixMembers(s: string, t: string)
    requires |t| <= |s| && t == s[|s| - |t|..]
    ensures forall x | x in t :: x in s
  {
    forall x | x in t ensures x in s {
      var k :| 0 <= k < |t| && t[k] == x;
      assert s[|s| - |t| + k] == x;
    }
  }

  /** The leading dashes removed. */
  function DropLeadingDashes(s: string): (r: string)
    ensures |r| <= |s|
    ensures r == s[|s| - |r|..]
    ensures forall k | 0 <= k < |s| - |r| :: s[k] == '-'
    ensures r == [] || r[0] != '-'
    decreases |s|
  {
    if |s| > 0 && s[0] == '-' then DropLeadingDashes(s[1..]) else s
  }

  /** The trailing dashes removed. */
  function DropTrailingDashes(s: string): (r: string)
    ensures |r| <= |s|
    ensures r == s[..|r|]
    ensures forall k | |r| <= k < |s| :: s[k] == '-'
    ensures r == [] || r[|r| - 1] != '-'
    decreases |s|
  {
    if |s| > 0 && s[|s| - 1] == '-' then DropTrailingDashes(s[..|s| - 1]) else s
  }

  /** Every character is a dash. */
  predicate AllDashes(s: string) {
    forall k | 0 <= k < |s| :: s[k] == '-'
  }

  /** `replace(/^-+|-+$/g, '')`: the dashes at either end removed; the rest is the
      contiguous piece of the input between them. */
  function TrimDashes(s: string): (r: string)
    ensures r == [] || (r[0] != '-' && r[|r| - 1] != '-')
    ensures forall i | 0 <= i < |r| :: r[i] in s
    ensures NoDoubleDash(s) ==> NoDoubleDash(r)
    ensures exists i, j | 0 <= i <= j <= |s| :: r == s[i..j] && AllDashes(s[..i]) && AllDashes(s[j..])
  {
    var a := DropLeadingDashes(s);
    var r := DropTrailingDashes(a);
    var i := |s| - |a|;
    var j := i + |r|;
    LeadingCut(s);
    TrailingCut(a);
    assert r == s[i..j];
    assert s[j..] == a[|r|..];
    PieceOf(s, i, j);
    r
  }

  /** What the leading drop cuts off is dashes. */
  lemma LeadingCut(s: string)
    ensures AllDashes(s[..|s| - |DropLeadingDashes(s)|])
  {
  }

  /** What the trailing drop cuts off is dashes. */
  lemma TrailingCut(s: string)
    ensures AllDashes(s[|DropTrailingDashes(s)|..])
  {
  }

  /** A contiguous piece of a string draws its characters from it and keeps its lack of
      `--`. */
  lemma PieceOf(s: string, lo: nat, hi: nat)
    requires lo <= hi <= |s|
    ensures forall i | 0 <= i < hi - lo :: s[lo..hi][i] in s
    ensures NoDoubleDash(s) ==> NoDoubleDash(s[lo..hi])
  {
    forall i | 0 <= i < hi - lo ensures s[lo..hi][i] in s {
      assert s[lo..hi][i] == s[lo + i];
    }
  }

  /** `generateSlug`: lower-case, trim, drop special characters, collapse separators into
      dashes, strip the dashes at either end. */
  function GenerateSlug(text: string): (r: string)
    ensures IsSlug(r)
  {
    SlugShape(text);
    TrimDashes(CollapseSeparators(RemoveSpecial(Text.Trim(Text.ToLower(text)))))
  }

  /** The pipeline's output is a slug: what reaches the collapse step is lower-case word
      characters, whitespace and dashes, so what leaves it is letters, digits and dashes. */
  lemma SlugShape(text: string)
    ensures IsSlug(TrimDashes(CollapseSeparators(RemoveSpecial(Text.Trim(Text.ToLower(text))))))
  {
    var lowered := Text.ToLower(text);
    var trimmed := Text.Trim(lowered);
    TrimChars(lowered);
    var cleaned := RemoveSpecial(trimmed);
    assert forall i | 0 <= i < |cleaned| :: !Text.IsAsciiUpper(cleaned[i]) by {
      forall i | 0 <= i < |cleaned|
        ensures !Text.IsAsciiUpper(cleaned[i])
      {
        var c := cleaned[i];
        assert c in trimmed;
        var j :| 0 <= j < |trimmed| && trimmed[j] == c;
        assert c in lowered;
      }
    }
    var collapsed := CollapseSeparators(cleaned);
    CollapsedAlphabet(cleaned);
    var r := TrimDashes(collapsed);
    forall i | 0 <= i < |r|
      ensures IsSlugAlnum(r[i]) || r[i] == '-'
    {
      assert r[i] in collapsed;
    }
  }

  /** Collapsing lower-case word characters, whitespace and dashes leaves letters, digits and
      dashes. */
  lemma CollapsedAlphabet(s: string)
    requires forall i | 0 <= i < |s| :: !Text.IsAsciiUpper(s[i])
    requires forall i | 0 <= i < |s| :: IsWordChar(s[i]) || Text.IsSpace(s[i]) || s[i] == '-'
    ensures forall i | 0 <= i < |CollapseSeparators(s)| ::
              IsSlugAlnum(CollapseSeparators(s)[i]) || CollapseSeparators(s)[i] == '-'
  {
    var r := CollapseSeparators(s);
    forall i | 0 <= i < |r|
      ensures IsSlugAlnum(r[i]) || r[i] == '-'
    {
      if r[i] != '-' {
        var j :| 0 <= j < |s| && s[j] == r[i];
      }
    }
  }

  /** Every character of a trimmed string comes from the string. */
  lemma TrimChars(s: string)
    ensures forall i | 0 <= i < |Text.Trim(s)| :: Text.Trim(s)[i] in s
  {
    var a := Text.TrimStart(s);
    var r := Text.TrimEnd(a);
    assert Text.Trim(s) == r;
    forall i | 0 <= i < |r|
      ensures r[i] in s
    {
      assert r[i] == a[i] == s[|s| - |a| + i];
    }
  }

  /** A slug has no separator but single dashes, so collapsing changes nothing. */
  lemma CollapseOfSlugBody(s: string)
    requires forall i | 0 <= i < |s| :: IsSlugAlnum(s[i]) || s[i] == '-'
    requires NoDoubleDash(s)
    ensures CollapseSeparators(s) == s
  {
    CollapseIsScan(s);
    ScanOfSlugBody(s, false);
  }

  /** The scan copies a slug body, inside a run or not, as long as a run is never followed
      by a dash. */
  lemma {:induction false} ScanOfSlugBody(s: string, inRun: bool)
    requires forall i | 0 <= i < |s| :: IsSlugAlnum(s[i]) || s[i] == '-'
    requires NoDoubleDash(s)
    requires inRun ==> s == [] || s[0] != '-'
    ensures CollapseScan(s, inRun) == s
    decreases |s|
  {
    if |s| > 0 {
      var t := s[1..];
      SlugBodyTail(s);
      assert [s[0]] + t == s;
      if s[0] == '-' {
        if t != [] {
          assert s[1] == t[0];
        }
        ScanOfSlugBody(t, true);
        assert CollapseScan(s, inRun) == "-" + CollapseScan(t, true);
      } else {
        AlnumIsNotSeparator(s[0]);
        ScanOfSlugBody(t, false);
        assert CollapseScan(s, inRun) == [s[0]] + CollapseScan(t, false);
      }
    }
  }

  /** The tail of a slug body is a slug body. */
  lemma SlugBodyTail(s: string)
    requires |s| > 0
    requires forall i | 0 <= i < |s| :: IsSlugAlnum(s[i]) || s[i] == '-'
    requires NoDoubleDash(s)
    ensures forall i | 0 <= i < |s| - 1 :: IsSlugAlnum(s[1..][i]) || s[1..][i] == '-'
    ensures NoDoubleDash(s[1..])
  {
    var t := s[1..];
    assert forall i | 0 <= i < |t| :: t[i] == s[i + 1];
  }

  lemma AlnumIsNotSeparator(c: char)
    requires IsSlugAlnum(c)
    ensures !IsSeparator(c)
  {
  }

  /** A slug is its own slug. */
  lemma SlugFixedPoint(s: string)
    requires IsSlug(s)
    ensures GenerateSlug(s) == s
  {
    SlugChars(s);
    Text.ToLowerOfLower(s);
    if s != [] {
      AlnumIsNotSpace(s[0]);
      AlnumIsNotSpace(s[|s| - 1]);
    }
    Text.TrimOfTrimmed(s);
    assert RemoveSpecial(s) == s;
    CollapseOfSlugBody(s);
    assert DropLeadingDashes(s) == s;
    assert DropTrailingDashes(s) == s;
  }

  /** A slug has no upper-case letter, and only word characters and dashes. */
  lemma SlugChars(s: string)
    requires forall i | 0 <= i < |s| :: IsSlugAlnum(s[i]) || s[i] == '-'
    ensures forall i | 0 <= i < |s| :: !Text.IsAsciiUpper(s[i])
    ensures forall i | 0 <= i < |s| :: IsWordChar(s[i]) || s[i] == '-'
  {
  }

  lemma AlnumIsNotSpace(c: char)
    requires IsSlugAlnum(c)
    ensures !Text.IsSpace(c)
  {
  }

  /** Generating a slug from a slug changes nothing. */
  lemma SlugIdempotent(text: string)
    ensures GenerateSlug(GenerateSlug(text)) == GenerateSlug(text)
  {
    SlugFixedPoint(GenerateSlug(text));
  }

  // ---------------------------------------------------------------------------------------
  // The letters and digits of a slug

  /** The lower-case letters and digits of `s`, in order. */
  function Alnums(s: string): (r: string)
    ensures |r| <= |s|
    decreases |s|
  {
    if |s| == 0 then "" else (if IsSlugAlnum(s[0]) then [s[0]] else "") + Alnums(s[1..])
  }

  lemma {:induction false} AlnumsAppend(a: string, b: string)
    ensures Alnums(a + b) == Alnums(a) + Alnums(b)
    decreases |a|
  {
    if |a| > 0 {
      AlnumsAppend(a[1..], b);
      assert (a + b)[1..] == a[1..] + b;
    } else {
      assert a + b == b;
    }
  }

  lemma {:induction false} AlnumsNone(s: string)
    requires forall i | 0 <= i < |s| :: !IsSlugAlnum(s[i])
    ensures Alnums(s) == ""
    decreases |s|
  {
    if |s| > 0 {
      AlnumsNone(s[1..]);
    }
  }

  /** Dropping a front that holds no letter or digit keeps the letters and digits. */
  lemma AlnumsOfSuffix(s: string, lo: nat)
    requires lo <= |s|
    requires forall k | 0 <= k < lo :: !IsSlugAlnum(s[k])
    ensures Alnums(s[lo..]) == Alnums(s)
  {
    var front, back := s[0..lo], s[lo..];
    AlnumsNoneBetween(s, 0, lo);
    AlnumsAppend(front, back);
    calc {
      Alnums(s);
      { assert front + back == s; }
      Alnums(front + back);
      Alnums(front) + Alnums(back);
      Alnums(back);
    }
  }

  /** Dropping a back that holds no letter or digit keeps the letters and digits. */
  lemma AlnumsOfPrefix(s: string, hi: nat)
    requires hi <= |s|
    requires forall k | hi <= k < |s| :: !IsSlugAlnum(s[k])
    ensures Alnums(s[..hi]) == Alnums(s)
  {
    var front, back := s[..hi], s[hi..|s|];
    AlnumsNoneBetween(s, hi, |s|);
    AlnumsAppend(front, back);
    calc {
      Alnums(s);
      { assert front + back == s; }
      Alnums(front + back);
      Alnums(front) + Alnums(back);
      Alnums(front);
    }
  }

  lemma AlnumsNoneBetween(s: string, lo: nat, hi: nat)
    requires lo <= hi <= |s|
    requires forall k | lo <= k < hi :: !IsSlugAlnum(s[k])
    ensures Alnums(s[lo..hi]) == ""
  {
    var piece := s[lo..hi];
    assert forall i | 0 <= i < |piece| :: piece[i] == s[lo + i];
    AlnumsNone(piece);
  }

  lemma TrimKeepsAlnums(s: string)
    ensures Alnums(Text.Trim(s)) == Alnums(s)
  {
    var a := Text.TrimStart(s);
    var r := Text.TrimEnd(a);
    assert Text.Trim(s) == r;
    SpacesHaveNoAlnum(s, 0, |s| - |a|);
    AlnumsOfSuffix(s, |s| - |a|);
    SpacesHaveNoAlnum(a, |r|, |a|);
    AlnumsOfPrefix(a, |r|);
  }

  /** Whitespace holds no letter or digit. */
  lemma SpacesHaveNoAlnum(s: string, lo: nat, hi: nat)
    requires lo <= hi <= |s|
    requires forall k | lo <= k < hi :: Text.IsSpace(s[k])
    ensures forall k | lo <= k < hi :: !IsSlugAlnum(s[k])
  {
    forall k | lo <= k < hi ensures !IsSlugAlnum(s[k]) {
      SpaceIsNotAlnum(s[k]);
    }
  }

  lemma SpaceIsNotAlnum(c: char)
    requires Text.IsSpace(c)
    ensures !IsSlugAlnum(c)
  {
  }

  lemma {:induction false} RemoveSpecialKeepsAlnums(s: string)
    ensures Alnums(RemoveSpecial(s)) == Alnums(s)
    decreases |s|
  {
    if |s| > 0 {
      RemoveSpecialKeepsAlnums(s[1..]);
      var rest := RemoveSpecial(s[1..]);
      if IsWordChar(s[0]) || Text.IsSpace(s[0]) || s[0] == '-' {
        assert ([s[0]] + rest)[1..] == rest;
      }
    }
  }

  lemma DropSeparatorsKeepsAlnums(t: string)
    ensures Alnums(DropSeparators(t)) == Alnums(t)
  {
    var d := DropSeparators(t);
    forall k | 0 <= k < |t| - |d|
      ensures !IsSlugAlnum(t[k])
    {
      SeparatorIsNotAlnum(t[k]);
    }
    AlnumsOfSuffix(t, |t| - |d|);
  }

  lemma {:induction false} CollapseKeepsAlnums(s: string)
    ensures Alnums(CollapseSeparators(s)) == Alnums(s)
    decreases |s|
  {
    if |s| > 0 {
      var t := s[1..];
      assert [s[0]] + t == s;
      AlnumsCons(s[0], t);
      if IsSeparator(s[0]) {
        var d := DropSeparators(t);
        var rest := CollapseSeparators(d);
        assert CollapseSeparators(s) == "-" + rest;
        CollapseKeepsAlnums(d);
        DropSeparatorsKeepsAlnums(t);
        AlnumsCons('-', rest);
        SeparatorIsNotAlnum(s[0]);
      } else {
        var rest := CollapseSeparators(t);
        assert CollapseSeparators(s) == [s[0]] + rest;
        CollapseKeepsAlnums(t);
        AlnumsCons(s[0], rest);
      }
    }
  }

  /** The letters and digits of a string with one more character in front. */
  lemma AlnumsCons(c: char, t: string)
    ensures Alnums([c] + t) == (if IsSlugAlnum(c) then [c] else "") + Alnums(t)
  {
    assert ([c] + t)[1..] == t;
  }

  lemma TrimDashesKeepsAlnums(s: string)
    ensures Alnums(TrimDashes(s)) == Alnums(s)
  {
    var a := DropLeadingDashes(s);
    var r := DropTrailingDashes(a);
    assert TrimDashes(s) == r;
    AlnumsOfSuffix(s, |s| - |a|);
    AlnumsOfPrefix(a, |r|);
  }

  /** The slug carries exactly the letters and digits of the lower-cased text, in order; it is
      empty exactly when the text has none. */
  lemma SlugKeepsAlnums(text: string)
    ensures Alnums(GenerateSlug(text)) == Alnums(Text.ToLower(text))
    ensures GenerateSlug(text) == "" <==> Alnums(Text.ToLower(text)) == ""
  {
    var lowered := Text.ToLower(text);
    var trimmed := Text.Trim(lowered);
    var cleaned := RemoveSpecial(trimmed);
    var collapsed := CollapseSeparators(cleaned);
    TrimKeepsAlnums(lowered);
    RemoveSpecialKeepsAlnums(trimmed);
    CollapseKeepsAlnums(cleaned);
    TrimDashesKeepsAlnums(collapsed);
    var r := GenerateSlug(text);
    if r != "" && Alnums(r) == "" {
      SlugWithoutAlnums(r);
    }
  }

  /** A non-empty slug holds a letter or digit: its first character is one. */
  lemma SlugWithoutAlnums(s: string)
    requires IsSlug(s) && s != ""
    ensures Alnums(s) != ""
  {
    assert IsSlugAlnum(s[0]);
  }
}
