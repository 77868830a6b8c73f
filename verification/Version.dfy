// Version negotiation (src/version.rs:1-130): parsing, printing and ordering
// semver texts, and Algorithm A14.
module Version {
  import opened Decimal
  import opened Texts
  import opened Wrappers

  const U64_LIMIT: nat := 0x1_0000_0000_0000_0000

  type U64 = n: int | 0 <= n < U64_LIMIT

  datatype SemVer = SemVer(major: U64, minor: U64, patch: U64, prerelease: Option<string>)

  datatype VersionError = InvalidDeclared | InvalidSdk | MajorMismatch | SdkTooOld

  // ---------------------------------------------------------------------
  // Parsing and printing
  // ---------------------------------------------------------------------

  predicate AllDigits(s: string) {
    forall i :: 0 <= i < |s| ==> IsDigit(s[i])
  }

  // `str::parse::<u64>`: digits, perhaps behind one plus sign, that fit.
  function ParseU64(s: string): Option<U64> {
    var digits := if s != "" && s[0] == '+' then s[1..] else s;
    if digits != "" && AllDigits(digits) && Value(digits) < U64_LIMIT then Some(Value(digits)) else None
  }

  // `find('-')`.
  function FindDash(s: string): (r: Option<nat>)
    ensures r.Some? ==> r.value < |s| && s[r.value] == '-' && '-' !in s[..r.value]
    ensures r.None? ==> '-' !in s
  {
    if s == "" then None
    else if s[0] == '-' then Some(0)
    else
      match FindDash(s[1..])
      case None => None
      case Some(i) => assert s[..i + 1] == [s[0]] + s[1..][..i]; Some(i + 1)
  }

  // The third segment: a patch number and perhaps a prerelease behind a dash.
  function ParsePatch(s: string): Option<(U64, Option<string>)> {
    match FindDash(s)
    case Some(dash) =>
      var pre := s[dash + 1..];
      var patch := ParseU64(s[..dash]);
      if pre == "" || patch.None? then None else Some((patch.value, Some(pre)))
    case None =>
      var patch := ParseU64(s);
      if patch.None? then None else Some((patch.value, None))
  }

  function Parse(version: string): Option<SemVer> {
    var parts := Split(version, '.');
    if |parts| != 3 then None
    else
      var major := ParseU64(parts[0]);
      var minor := ParseU64(parts[1]);
      var patch := ParsePatch(parts[2]);
      if major.None? || minor.None? || patch.None? then None
      else Some(SemVer(major.value, minor.value, patch.value.0, patch.value.1))
  }

  function PrintPatch(v: SemVer): string {
    if v.prerelease.Some? then Print(v.patch) + ['-'] + v.prerelease.value else Print(v.patch)
  }

  function ToText(v: SemVer): string {
    Print(v.major) + ['.'] + (Print(v.minor) + ['.'] + PrintPatch(v))
  }

  // ---------------------------------------------------------------------
  // What is parsed
  // ---------------------------------------------------------------------

  // A number is at least one digit, perhaps behind one plus sign, that fits.
  lemma NumberIs(s: string, digits: string)
    requires s == digits || s == "+" + digits
    requires digits != "" && forall i :: 0 <= i < |digits| ==> '0' <= digits[i] <= '9'
    ensures ParseU64(s) == if Value(digits) < 0x1_0000_0000_0000_0000 then Some(Value(digits)) else None
  {
    assert s != digits ==> s[1..] == digits && s[0] == '+';
    assert digits[0] != '+';
  }

  lemma NumberOnly(s: string)
    requires ParseU64(s).Some?
    ensures s != "" && (forall i :: 1 <= i < |s| ==> '0' <= s[i] <= '9')
    ensures '0' <= s[0] <= '9' || (s[0] == '+' && |s| > 1)
  {
    var digits := if s[0] == '+' then s[1..] else s;
    assert forall i :: 0 <= i < |digits| ==> IsDigit(digits[i]);
    if s[0] == '+' {
      assert forall i :: 1 <= i < |s| ==> s[i] == digits[i - 1];
    }
  }

  // The value is decimal, most significant digit first.
  lemma DecimalValue(digits: string, c: char)
    requires forall i :: 0 <= i < |digits| ==> '0' <= digits[i] <= '9'
    requires '0' <= c <= '9'
    ensures Value("") == 0 && Value(digits + [c]) == 10 * Value(digits) + (c as int - 48)
  {
    assert (digits + [c])[..|digits|] == digits;
  }

  // A patch is a number, or one before the first dash with some text behind it.
  lemma PatchIs(s: string)
    ensures '-' !in s ==>
      ParsePatch(s) == if ParseU64(s).Some? then Some((ParseU64(s).value, None)) else None
    ensures forall number, pre :: s == number + "-" + pre && '-' !in number ==>
      ParsePatch(s) ==
      if ParseU64(number).Some? && pre != "" then Some((ParseU64(number).value, Some(pre))) else None
  {
    forall number, pre | s == number + "-" + pre && '-' !in number
      ensures ParsePatch(s) ==
              if ParseU64(number).Some? && pre != "" then Some((ParseU64(number).value, Some(pre))) else None
    {
      FirstDash(number, pre);
      assert s[..|number|] == number && s[|number| + 1..] == pre;
      assert s[|number|] == '-';
    }
  }

  // A version is a number, a number and a patch with dots between them, and no
  // other text is one.
  lemma VersionIs(major: string, minor: string, patch: string)
    requires '.' !in major && '.' !in minor && '.' !in patch
    ensures Parse(major + "." + minor + "." + patch) ==
            if ParseU64(major).Some? && ParseU64(minor).Some? && ParsePatch(patch).Some? then
              Some(SemVer(ParseU64(major).value, ParseU64(minor).value, ParsePatch(patch).value.0,
                          ParsePatch(patch).value.1))
            else None
  {
    var text := major + "." + minor + "." + patch;
    assert text == major + ['.'] + (minor + ['.'] + patch);
    SplitFirst(major, '.', minor + ['.'] + patch);
    SplitFirst(minor, '.', patch);
    SplitOne(patch, '.');
  }

  lemma Regrouped(a: string, b: string, c: string)
    ensures a + ['.'] + (b + ['.'] + c) == a + "." + b + "." + c
  {
  }

  lemma VersionOnly(text: string) returns (major: string, minor: string, patch: string)
    requires Parse(text).Some?
    ensures '.' !in major && '.' !in minor && '.' !in patch && text == major + "." + minor + "." + patch
  {
    var pieces := Split(text, '.');
    major, minor, patch := pieces[0], pieces[1], pieces[2];
    SplitPieces(text, '.', 0);
    SplitPieces(text, '.', 1);
    SplitPieces(text, '.', 2);
    var rest := SplitBehindFirst(text, '.');
    assert Split(rest, '.') == [minor, patch];
    var last := SplitBehindFirst(rest, '.');
    assert Split(last, '.') == [patch];
    var end := SplitBehindFirst(last, '.');
    Regrouped(major, minor, patch);
  }

  // A prerelease that a parsed version can carry.
  predicate Printable(v: SemVer) {
    v.prerelease.Some? ==> v.prerelease.value != "" && '.' !in v.prerelease.value
  }

  lemma PrintedNumber(n: U64)
    ensures ParseU64(Print(n)) == Some(n)
    ensures '.' !in Print(n) && '-' !in Print(n)
  {
    ValueOfPrint(n);
  }

  lemma {:induction false} FirstDash(a: string, b: string)
    requires '-' !in a
    ensures FindDash(a + ['-'] + b) == Some(|a|)
  {
    if a != "" {
      assert (a + ['-'] + b)[1..] == a[1..] + ['-'] + b;
      FirstDash(a[1..], b);
    }
  }

  lemma PatchRoundTrip(v: SemVer)
    ensures ParsePatch(PrintPatch(v)) ==
            if v.prerelease == Some("") then None else Some((v.patch, v.prerelease))
  {
    PrintedNumber(v.patch);
    var text := PrintPatch(v);
    if v.prerelease.Some? {
      FirstDash(Print(v.patch), v.prerelease.value);
      assert text[..|Print(v.patch)|] == Print(v.patch);
      assert text[|Print(v.patch)| + 1..] == v.prerelease.value;
    }
  }

  lemma SplitOfText(v: SemVer)
    ensures Split(ToText(v), '.') == [Print(v.major), Print(v.minor)] + Split(PrintPatch(v), '.')
  {
    PrintedNumber(v.major);
    PrintedNumber(v.minor);
    SplitFirst(Print(v.minor), '.', PrintPatch(v));
    SplitFirst(Print(v.major), '.', Print(v.minor) + ['.'] + PrintPatch(v));
  }

  // Printing and parsing come back to the same version exactly when its
  // prerelease is absent, or not empty and without a dot.
  lemma RoundTrip(v: SemVer)
    ensures Parse(ToText(v)) == Some(v) <==> Printable(v)
  {
    SplitOfText(v);
    PatchRoundTrip(v);
    PrintedNumber(v.major);
    PrintedNumber(v.minor);
    PrintedNumber(v.patch);
    if '.' in PrintPatch(v) {
      DotSplits(PrintPatch(v));
    } else {
      SplitOne(PrintPatch(v), '.');
    }
  }

  lemma {:induction false} DotSplits(s: string)
    requires '.' in s
    ensures |Split(s, '.')| > 1
  {
    if s[0] != '.' {
      assert s == [s[0]] + s[1..];
      DotSplits(s[1..]);
    }
  }

  // Whatever parses is printable, so re-parsing a printed parse loses nothing.
  lemma ParsedIsPrintable(text: string)
    ensures Parse(text).Some? ==> Printable(Parse(text).value) && Parse(ToText(Parse(text).value)) == Parse(text)
  {
    if Parse(text).Some? {
      SplitPieces(text, '.', 2);
      RoundTrip(Parse(text).value);
    }
  }

  // ---------------------------------------------------------------------
  // The order
  // ---------------------------------------------------------------------

  datatype Ordering = Less | Equal | Greater {
    function Then(next: Ordering): Ordering {
      if this.Equal? then next else this
    }

    function Reverse(): Ordering {
      match this
      case Less => Greater
      case Equal => Equal
      case Greater => Less
    }
  }

  function CmpNat(a: nat, b: nat): Ordering {
    if a < b then Less else if a == b then Equal else Greater
  }

  // Code point order, which is the byte order of UTF-8.
  function CmpText(a: string, b: string): Ordering {
    if a == "" && b == "" then Equal
    else if a == "" then Less
    else if b == "" then Greater
    else CmpNat(a[0] as nat, b[0] as nat).Then(CmpText(a[1..], b[1..]))
  }

  // A release is above its prereleases, which compare as one text.
  function CmpPrerelease(a: Option<string>, b: Option<string>): Ordering {
    match (a, b)
    case (None, None) => Equal
    case (None, Some(_)) => Greater
    case (Some(_), None) => Less
    case (Some(x), Some(y)) => CmpText(x, y)
  }

  function Cmp(a: SemVer, b: SemVer): Ordering {
    CmpNat(a.major, b.major).Then(CmpNat(a.minor, b.minor))
    .Then(CmpNat(a.patch, b.patch)).Then(CmpPrerelease(a.prerelease, b.prerelease))
  }

  lemma {:induction false} TextOrder(a: string, b: string)
    ensures CmpText(a, b).Equal? <==> a == b
    ensures CmpText(b, a) == CmpText(a, b).Reverse()
  {
    if a != "" && b != "" {
      TextOrder(a[1..], b[1..]);
      assert a == [a[0]] + a[1..] && b == [b[0]] + b[1..];
    }
  }

  lemma {:induction false} TextTransitive(a: string, b: string, c: string)
    ensures !CmpText(a, b).Greater? && !CmpText(b, c).Greater? ==> !CmpText(a, c).Greater?
  {
    if a != "" && b != "" && c != "" {
      TextTransitive(a[1..], b[1..], c[1..]);
    }
  }

  // The order is total, agrees with equality, and is transitive.
  lemma OrderIsTotal(a: SemVer, b: SemVer)
    ensures Cmp(a, b).Equal? <==> a == b
    ensures Cmp(b, a) == Cmp(a, b).Reverse()
  {
    if a.prerelease.Some? && b.prerelease.Some? {
      TextOrder(a.prerelease.value, b.prerelease.value);
    }
  }

  lemma PrereleaseTransitive(a: Option<string>, b: Option<string>, c: Option<string>)
    ensures !CmpPrerelease(a, b).Greater? && !CmpPrerelease(b, c).Greater? ==> !CmpPrerelease(a, c).Greater?
  {
    if a.Some? && b.Some? && c.Some? {
      TextTransitive(a.value, b.value, c.value);
    }
  }

  lemma OrderIsTransitive(a: SemVer, b: SemVer, c: SemVer)
    requires !Cmp(a, b).Greater? && !Cmp(b, c).Greater?
    ensures !Cmp(a, c).Greater?
  {
    PrereleaseTransitive(a.prerelease, b.prerelease, c.prerelease);
  }

  // One text is below another where they first differ, or where it ends.
  ghost predicate TextBefore(a: string, b: string) {
    exists i: nat :: i <= |a| && i < |b| && a[..i] == b[..i] && (i == |a| || a[i] < b[i])
  }

  lemma {:induction false} TextOrderIs(a: string, b: string)
    ensures CmpText(a, b).Less? <==> TextBefore(a, b)
  {
    if a == "" || b == "" {
      assert a == "" && b != "" ==> a[..0] == b[..0];
    } else {
      TextOrderIs(a[1..], b[1..]);
      if a[0] == b[0] && TextBefore(a[1..], b[1..]) {
        var i: nat :| i <= |a[1..]| && i < |b[1..]| && a[1..][..i] == b[1..][..i]
                      && (i == |a[1..]| || a[1..][i] < b[1..][i]);
        assert a[..i + 1] == [a[0]] + a[1..][..i] && b[..i + 1] == [b[0]] + b[1..][..i];
      }
      if a[0] < b[0] {
        assert a[..0] == b[..0];
      }
      if TextBefore(a, b) {
        var i: nat :| i <= |a| && i < |b| && a[..i] == b[..i] && (i == |a| || a[i] < b[i]);
        if i > 0 {
          assert a[0] == a[..i][0] == b[..i][0] == b[0];
          assert a[1..][..i - 1] == a[..i][1..] && b[1..][..i - 1] == b[..i][1..];
        }
      }
    }
  }

  // A version is below another by its major, then its minor, then its patch;
  // of equal numbers a prerelease is below the release and, of two, the one
  // whose text is.
  lemma OrderIs(a: SemVer, b: SemVer)
    ensures Cmp(a, b).Less? <==>
            || a.major < b.major
            || (a.major == b.major && a.minor < b.minor)
            || (a.major == b.major && a.minor == b.minor && a.patch < b.patch)
            || (a.major == b.major && a.minor == b.minor && a.patch == b.patch
                && a.prerelease.Some? && (b.prerelease.None? || TextBefore(a.prerelease.value, b.prerelease.value)))
    ensures Cmp(a, b).Greater? <==> Cmp(b, a).Less?
  {
    if a.prerelease.Some? && b.prerelease.Some? {
      TextOrderIs(a.prerelease.value, b.prerelease.value);
    }
    OrderIsTotal(a, b);
  }

  // ---------------------------------------------------------------------
  // Negotiation
  // ---------------------------------------------------------------------

  // `std::cmp::max`: the second of two equals.
  function Max(a: SemVer, b: SemVer): SemVer {
    if Cmp(a, b).Greater? then a else b
  }

  function Negotiate(declaredText: string, sdkText: string): Result<string, VersionError> {
    var declared := Parse(declaredText);
    var sdk := Parse(sdkText);
    if declared.None? then Err(InvalidDeclared)
    else if sdk.None? then Err(InvalidSdk)
    else if declared.value.major != sdk.value.major then Err(MajorMismatch)
    else if declared.value.minor > sdk.value.minor then Err(SdkTooOld)
    else if declared.value.minor < sdk.value.minor then Ok(declaredText)
    else Ok(ToText(Max(declared.value, sdk.value)))
  }

  // What a negotiation accepts: two versions of one major, the declared minor
  // not above the SDK's.
  predicate Compatible(declaredText: string, sdkText: string) {
    Parse(declaredText).Some? && Parse(sdkText).Some? &&
    var declared, sdk := Parse(declaredText).value, Parse(sdkText).value;
    declared.major == sdk.major && declared.minor <= sdk.minor
  }

  // It accepts exactly those, and answers a version of the SDK's major, with a
  // minor not above the SDK's, that is not below the declared one: the
  // declared version's own meaning, or the SDK's.
  lemma NegotiatedFits(declaredText: string, sdkText: string)
    ensures Negotiate(declaredText, sdkText).Ok? <==> Compatible(declaredText, sdkText)
    ensures Compatible(declaredText, sdkText) ==>
      var r := Parse(Negotiate(declaredText, sdkText).value);
      && r.Some?
      && r.value.major == Parse(sdkText).value.major
      && r.value.minor == Parse(declaredText).value.minor <= Parse(sdkText).value.minor
      && !Cmp(Parse(declaredText).value, r.value).Greater?
      && (r == Parse(declaredText) || r == Parse(sdkText))
  {
    ParsedIsPrintable(declaredText);
    ParsedIsPrintable(sdkText);
    if Compatible(declaredText, sdkText) {
      OrderIsTotal(Parse(declaredText).value, Parse(sdkText).value);
      OrderIsTotal(Parse(declaredText).value, Parse(declaredText).value);
    }
  }

  // The answer, and the refusal, case by case.
  lemma NegotiationIs(declaredText: string, sdkText: string)
    ensures Negotiate(declaredText, sdkText) == Err(InvalidDeclared) <==> Parse(declaredText).None?
    ensures Negotiate(declaredText, sdkText) == Err(InvalidSdk) <==>
            Parse(declaredText).Some? && Parse(sdkText).None?
    ensures Parse(declaredText).Some? && Parse(sdkText).Some? ==>
      var a, b := Parse(declaredText).value, Parse(sdkText).value;
      && (Negotiate(declaredText, sdkText) == Err(MajorMismatch) <==> a.major != b.major)
      && (Negotiate(declaredText, sdkText) == Err(SdkTooOld) <==> a.major == b.major && a.minor > b.minor)
      && (a.major == b.major && a.minor < b.minor ==> Negotiate(declaredText, sdkText) == Ok(declaredText))
      && (a.major == b.major && a.minor == b.minor ==>
            Negotiate(declaredText, sdkText) == Ok(ToText(if Cmp(b, a).Less? then a else b)))
  {
    if Parse(declaredText).Some? && Parse(sdkText).Some? {
      OrderIsTotal(Parse(declaredText).value, Parse(sdkText).value);
    }
  }

  lemma MaxAgain(a: SemVer, b: SemVer)
    ensures Max(Max(a, b), b) == Max(a, b)
  {
    OrderIsTotal(b, b);
  }

  // Negotiating the answer again changes nothing.
  lemma NegotiateIsIdempotent(declaredText: string, sdkText: string)
    requires Negotiate(declaredText, sdkText).Ok?
    ensures Negotiate(Negotiate(declaredText, sdkText).value, sdkText) == Negotiate(declaredText, sdkText)
  {
    var declared, sdk := Parse(declaredText).value, Parse(sdkText).value;
    if declared.minor == sdk.minor {
      var top := Max(declared, sdk);
      assert Parse(ToText(top)) == Some(top) by {
        ParsedIsPrintable(declaredText);
        ParsedIsPrintable(sdkText);
      }
      MaxAgain(declared, sdk);
    }
  }
}
