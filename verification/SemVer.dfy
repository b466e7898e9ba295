/** Semantic versions of skills (skill_models.py, SemVer).

    A version string is parsed by one regular expression, which the functions below read from
    left to right; a version is printed back by __str__.  Version constraints compare with a
    parsed target.  The theorems say which texts parse and to what, which versions are read back
    from their printed form, and which versions each kind of constraint (exact, tilde, caret,
    latest, range) admits. */
module SemVer {
  import opened Common

  datatype Version = Version(major: nat, minor: nat, patch: nat, prerelease: Option<string>, build: Option<string>)

  datatype Constraint = Exact | Caret | Tilde | Range | Latest

  // ---------- Characters and spans ----------

  predicate IsDigit(c: char) { '0' <= c <= '9' }

  /** `[a-zA-Z0-9.-]`. */
  predicate IsIdent(c: char) {
    IsDigit(c) || 'a' <= c <= 'z' || 'A' <= c <= 'Z' || c == '.' || c == '-'
  }

  predicate AllDigits(s: string) { forall i :: 0 <= i < |s| ==> IsDigit(s[i]) }

  predicate AllIdent(s: string) { forall i :: 0 <= i < |s| ==> IsIdent(s[i]) }

  /** Length of the longest prefix of digits; of identifier characters. */
  function DigitSpan(s: string): (n: nat)
    ensures n <= |s| && AllDigits(s[..n]) && (n < |s| ==> !IsDigit(s[n]))
  {
    if s == "" || !IsDigit(s[0]) then 0 else 1 + DigitSpan(s[1..])
  }

  function IdentSpan(s: string): (n: nat)
    ensures n <= |s| && AllIdent(s[..n]) && (n < |s| ==> !IsIdent(s[n]))
  {
    if s == "" || !IsIdent(s[0]) then 0 else 1 + IdentSpan(s[1..])
  }

  function StripLeft(s: string, cs: set<char>): string {
    if s != "" && s[0] in cs then StripLeft(s[1..], cs) else s
  }

  /** int() of a run of digits. */
  function NumberOf(s: string): nat
    requires AllDigits(s)
  {
    if s == "" then 0 else 10 * NumberOf(s[..|s| - 1]) + (s[|s| - 1] as int - '0' as int)
  }

  // ---------- Parsing ----------

  datatype Read<T> = Read(value: T, rest: string)

  /** `(\d+)`. */
  function ReadNumber(s: string): Option<Read<nat>> {
    var n := DigitSpan(s);
    if n == 0 then None else Some(Read(NumberOf(s[..n]), s[n..]))
  }

  /** `\.(\d+)`. */
  function ReadDotNumber(s: string): Option<Read<nat>> {
    if s == "" || s[0] != '.' then None else ReadNumber(s[1..])
  }

  /** An optional mark followed by identifier characters; without one of them the mark stays. */
  function ReadOptional(mark: char, s: string): Read<Option<string>> {
    if s == "" || s[0] != mark || IdentSpan(s[1..]) == 0 then Read(None, s)
    else
      var n := IdentSpan(s[1..]);
      Read(Some(s[1..][..n]), s[1..][n..])
  }

  /** The pattern itself; its end also matches before one final newline. */
  function Match(s: string): Option<Version> {
    var major := ReadNumber(s);
    if major.None? then None else
    var minor := ReadDotNumber(major.value.rest);
    if minor.None? then None else
    var patch := ReadDotNumber(minor.value.rest);
    if patch.None? then None else
    var pre := ReadOptional('-', patch.value.rest);
    var build := ReadOptional('+', pre.rest);
    if build.rest == "" || build.rest == "\n"
    then Some(Version(major.value.value, minor.value.value, patch.value.value, pre.value, build.value))
    else None
  }

  /** parse; None is the ValueError. */
  function Parse(s: string): Option<Version> {
    Match(StripLeft(s, {'v'}))
  }

  /** __str__: absent and empty parts print as nothing. */
  function Tail(mark: char, part: Option<string>): string {
    if part.Some? && part.value != "" then [mark] + part.value else ""
  }

  function Print(v: Version): string {
    Decimal(v.major) + "." + Decimal(v.minor) + "." + Decimal(v.patch) + Tail('-', v.prerelease) + Tail('+', v.build)
  }

  // ---------- The round trip ----------

  /** An absent part, or a non-empty one of identifier characters. */
  predicate GoodPart(part: Option<string>) {
    part.Some? ==> part.value != "" && AllIdent(part.value)
  }

  predicate WellFormed(v: Version) {
    GoodPart(v.prerelease) && GoodPart(v.build)
  }

  lemma {:induction false} DecimalReadsBack(n: nat)
    ensures Decimal(n) != "" && AllDigits(Decimal(n)) && NumberOf(Decimal(n)) == n
  {
    if n < 10 {
      DigitValue(n);
      assert [Digit(n)][..0] == "";
    } else {
      DecimalReadsBack(n / 10);
      DigitValue(n % 10);
      var s := Decimal(n);
      assert s[..|s| - 1] == Decimal(n / 10) && s[|s| - 1] == Digit(n % 10);
    }
  }

  lemma DigitValue(d: nat)
    requires d < 10
    ensures IsDigit(Digit(d)) && Digit(d) as int - '0' as int == d
  {
  }

  lemma {:induction false} DigitSpanOf(ds: string, rest: string)
    requires AllDigits(ds) && (rest != "" ==> !IsDigit(rest[0]))
    ensures DigitSpan(ds + rest) == |ds|
    decreases |ds|
  {
    if ds != "" {
      assert (ds + rest)[1..] == ds[1..] + rest;
      DigitSpanOf(ds[1..], rest);
    } else {
      assert ds + rest == rest;
    }
  }

  lemma {:induction false} IdentSpanOf(ids: string, rest: string)
    requires AllIdent(ids) && (rest != "" ==> !IsIdent(rest[0]))
    ensures IdentSpan(ids + rest) == |ids|
    decreases |ids|
  {
    if ids != "" {
      assert (ids + rest)[1..] == ids[1..] + rest;
      IdentSpanOf(ids[1..], rest);
    } else {
      assert ids + rest == rest;
    }
  }

  lemma ReadPrintedNumber(n: nat, rest: string)
    requires rest != "" ==> !IsDigit(rest[0])
    ensures ReadNumber(Decimal(n) + rest) == Some(Read(n, rest))
    ensures ReadDotNumber("." + Decimal(n) + rest) == Some(Read(n, rest))
  {
    hide Decimal, NumberOf, DigitSpan;
    var ds := Decimal(n);
    DecimalReadsBack(n);
    DigitSpanOf(ds, rest);
    assert (ds + rest)[..|ds|] == ds && (ds + rest)[|ds|..] == rest;
    assert ("." + ds + rest)[0] == '.' && ("." + ds + rest)[1..] == ds + rest;
  }

  lemma ReadPrintedTail(mark: char, part: Option<string>, rest: string)
    requires GoodPart(part) && (rest != "" ==> !IsIdent(rest[0]) && rest[0] != mark)
    ensures ReadOptional(mark, Tail(mark, part) + rest) == Read(part, rest)
  {
    if part.Some? {
      var s := Tail(mark, part) + rest;
      assert s[1..] == part.value + rest;
      IdentSpanOf(part.value, rest);
    } else {
      assert Tail(mark, part) + rest == rest;
    }
  }

  lemma {:induction false} NoMarkStripped(s: string, cs: set<char>)
    requires s != "" && s[0] !in cs
    ensures StripLeft(s, cs) == s
  {
  }

  lemma PrintedParses(v: Version)
    requires WellFormed(v)
    ensures Parse(Print(v)) == Some(v)
  {
    hide ReadNumber, ReadDotNumber, ReadOptional, Decimal, NumberOf, AllIdent, StripLeft;
    var e := Tail('+', v.build);
    var d := Tail('-', v.prerelease) + e;
    var c := "." + Decimal(v.patch) + d;
    var b := "." + Decimal(v.minor) + c;
    assert Print(v) == Decimal(v.major) + b;
    DecimalReadsBack(v.major);
    assert Print(v)[0] == Decimal(v.major)[0];
    NoMarkStripped(Print(v), {'v'});
    ReadPrintedNumber(v.major, b);
    ReadPrintedNumber(v.minor, c);
    ReadPrintedNumber(v.patch, d);
    ReadPrintedTail('-', v.prerelease, e);
    assert e + "" == e;
    ReadPrintedTail('+', v.build, "");
  }

  lemma ParsedIsWellFormed(s: string)
    requires Parse(s).Some?
    ensures WellFormed(Parse(s).value)
  {
  }

  /** Printing and parsing gives the version back exactly if its optional parts are absent or
      non-empty runs of identifier characters. */
  lemma RoundTripIff(v: Version)
    ensures Parse(Print(v)) == Some(v) <==> WellFormed(v)
  {
    if WellFormed(v) {
      PrintedParses(v);
    } else if Parse(Print(v)) == Some(v) {
      ParsedIsWellFormed(Print(v));
    }
  }

  /** Whatever spelling was parsed, the printed form names the same version. */
  lemma PrintNormalises(s: string)
    requires Parse(s).Some?
    ensures Parse(Print(Parse(s).value)) == Parse(s)
  {
    ParsedIsWellFormed(s);
    PrintedParses(Parse(s).value);
  }

  // ---------- Exactly which texts are versions ----------

  /** A spelling of v: any v's, three runs of digits, the optional parts, and perhaps a final
      newline; leading zeros are allowed. */
  ghost predicate Spells(s: string, v: Version, lead: string, a: string, b: string, c: string, end: string) {
    && (forall i :: 0 <= i < |lead| ==> lead[i] == 'v')
    && IsNumber(a, v.major) && IsNumber(b, v.minor) && IsNumber(c, v.patch)
    && WellFormed(v) && (end == "" || end == "\n")
    && s == lead + (a + ("." + b + ("." + c + (Tail('-', v.prerelease) + (Tail('+', v.build) + end)))))
  }

  ghost predicate IsNumber(s: string, n: nat) {
    s != "" && AllDigits(s) && NumberOf(s) == n
  }

  ghost predicate IsSpelled(s: string, v: Version) {
    exists lead, a, b, c, end :: Spells(s, v, lead, a, b, c, end)
  }

  lemma {:induction false} StripLeftIs(s: string, cs: set<char>)
    ensures StripLeft(s, cs) != "" ==> StripLeft(s, cs)[0] !in cs
    ensures |StripLeft(s, cs)| <= |s|
    ensures var n := |s| - |StripLeft(s, cs)|; s == s[..n] + StripLeft(s, cs) && forall i :: 0 <= i < n ==> s[i] in cs
    decreases |s|
  {
    if s != "" && s[0] in cs {
      StripLeftIs(s[1..], cs);
      var n := |s| - |StripLeft(s, cs)|;
      assert s == [s[0]] + s[1..] && s[..n] == [s[0]] + s[1..][..n - 1];
    }
  }

  lemma {:induction false} StripLeftOf(lead: string, rest: string, cs: set<char>)
    requires (forall i :: 0 <= i < |lead| ==> lead[i] in cs) && (rest != "" ==> rest[0] !in cs)
    ensures StripLeft(lead + rest, cs) == rest
    decreases |lead|
  {
    if lead == "" {
      assert lead + rest == rest;
    } else {
      assert (lead + rest)[0] == lead[0] && (lead + rest)[1..] == lead[1..] + rest;
      StripLeftOf(lead[1..], rest, cs);
    }
  }

  lemma ReadSpelledNumber(ds: string, n: nat, rest: string)
    requires IsNumber(ds, n) && (rest != "" ==> !IsDigit(rest[0]))
    ensures ReadNumber(ds + rest) == Some(Read(n, rest))
    ensures ReadDotNumber("." + ds + rest) == Some(Read(n, rest))
  {
    hide NumberOf, DigitSpan;
    DigitSpanOf(ds, rest);
    assert (ds + rest)[..|ds|] == ds && (ds + rest)[|ds|..] == rest;
    assert ("." + ds + rest)[0] == '.' && ("." + ds + rest)[1..] == ds + rest;
  }

  lemma SpelledParses(s: string, v: Version, lead: string, a: string, b: string, c: string, end: string)
    requires Spells(s, v, lead, a, b, c, end)
    ensures Parse(s) == Some(v)
  {
    hide ReadNumber, ReadDotNumber, ReadOptional, NumberOf, AllIdent, StripLeft;
    var e := Tail('+', v.build) + end;
    var d := Tail('-', v.prerelease) + e;
    var z := "." + c + d;
    var y := "." + b + z;
    assert s == lead + (a + y);
    assert (a + y)[0] == a[0] && IsDigit(a[0]);
    StripLeftOf(lead, a + y, {'v'});
    ReadSpelledNumber(a, v.major, y);
    ReadSpelledNumber(b, v.minor, z);
    ReadSpelledNumber(c, v.patch, d);
    ReadPrintedTail('-', v.prerelease, e);
    ReadPrintedTail('+', v.build, end);
  }

  lemma ReadNumberSpells(s: string) returns (ds: string)
    requires ReadNumber(s).Some?
    ensures IsNumber(ds, ReadNumber(s).value.value) && s == ds + ReadNumber(s).value.rest
  {
    ds := s[..DigitSpan(s)];
  }

  lemma ReadDotNumberSpells(s: string) returns (ds: string)
    requires ReadDotNumber(s).Some?
    ensures IsNumber(ds, ReadDotNumber(s).value.value) && s == "." + ds + ReadDotNumber(s).value.rest
  {
    hide ReadNumber, IsNumber;
    ds := ReadNumberSpells(s[1..]);
    assert s == "." + s[1..];
  }

  lemma ReadOptionalSpells(mark: char, s: string)
    ensures var r := ReadOptional(mark, s); GoodPart(r.value) && s == Tail(mark, r.value) + r.rest
  {
    var r := ReadOptional(mark, s);
    if r.value.Some? {
      assert s == [s[0]] + s[1..];
      var n := IdentSpan(s[1..]);
      assert s[1..] == s[1..][..n] + s[1..][n..];
      assert Tail(mark, r.value) == [mark] + s[1..][..n];
    } else {
      assert Tail(mark, r.value) == "" && s == "" + s;
    }
  }

  lemma MatchedIsSpelled(lead: string, t: string)
    requires Match(t).Some? && forall i :: 0 <= i < |lead| ==> lead[i] == 'v'
    ensures IsSpelled(lead + t, Match(t).value)
  {
    hide ReadNumber, ReadDotNumber, ReadOptional, IsNumber, GoodPart, Tail;
    var a := ReadNumberSpells(t);
    var y := ReadNumber(t).value.rest;
    var b := ReadDotNumberSpells(y);
    var z := ReadDotNumber(y).value.rest;
    var c := ReadDotNumberSpells(z);
    var d := ReadDotNumber(z).value.rest;
    ReadOptionalSpells('-', d);
    var e := ReadOptional('-', d).rest;
    ReadOptionalSpells('+', e);
    assert Spells(lead + t, Match(t).value, lead, a, b, c, ReadOptional('+', e).rest);
  }

  lemma ParsedIsSpelled(s: string)
    requires Parse(s).Some?
    ensures IsSpelled(s, Parse(s).value)
  {
    var t := StripLeft(s, {'v'});
    StripLeftIs(s, {'v'});
    hide Match, IsSpelled, StripLeft;
    MatchedIsSpelled(s[..|s| - |t|], t);
  }

  /** A text parses to a version exactly if it spells it; nothing may stand before, between or after
      the parts but leading v's and one final newline. */
  lemma ParsesIff(s: string, v: Version)
    ensures Parse(s) == Some(v) <==> IsSpelled(s, v)
  {
    if Parse(s) == Some(v) { ParsedIsSpelled(s); }
    if IsSpelled(s, v) {
      var lead, a, b, c, end :| Spells(s, v, lead, a, b, c, end);
      SpelledParses(s, v, lead, a, b, c, end);
    }
  }

  // ---------- Constraints ----------

  /** is_compatible_with a target version. */
  predicate Satisfies(v: Version, t: Version, c: Constraint) {
    match c
    case Latest => true
    case Exact => v.major == t.major && v.minor == t.minor && v.patch == t.patch
    case Caret =>
      if t.major == 0 then v.major == 0 && v.minor == t.minor && v.patch >= t.patch
      else v.major == t.major && (v.minor > t.minor || (v.minor == t.minor && v.patch >= t.patch))
    case Tilde => v.major == t.major && v.minor == t.minor && v.patch >= t.patch
    case Range => false
  }

  predicate IsCompatible(v: Version, constraint: string, c: Constraint) {
    if c.Latest? then true
    else
      var t := Parse(StripLeft(constraint, {'^', '~'}));
      t.Some? && Satisfies(v, t.value, c)
  }

  /** Exact is stricter than tilde, tilde than caret, caret than latest; ranges admit nothing. */
  lemma ConstraintsAreNested(v: Version, constraint: string)
    ensures IsCompatible(v, constraint, Range) ==> IsCompatible(v, constraint, Exact)
    ensures IsCompatible(v, constraint, Exact) ==> IsCompatible(v, constraint, Tilde)
    ensures IsCompatible(v, constraint, Tilde) ==> IsCompatible(v, constraint, Caret)
    ensures IsCompatible(v, constraint, Caret) ==> IsCompatible(v, constraint, Latest)
  {
  }

  /** A constraint written as mark and version compares with that version. */
  lemma ConstraintNamesVersion(v: Version, t: Version, mark: string, c: Constraint)
    requires WellFormed(t) && mark in {"", "^", "~"} && !c.Latest?
    ensures IsCompatible(v, mark + Print(t), c) <==> Satisfies(v, t, c)
  {
    PrintedParses(t);
    DecimalReadsBack(t.major);
    var p := Print(t);
    assert p[0] == Decimal(t.major)[0];
    NoMarkStripped(p, {'^', '~'});
    if mark != "" {
      assert (mark + p)[0] == mark[0] && (mark + p)[1..] == p;
    } else {
      assert mark + p == p;
    }
  }

  /** What each constraint on a printed version admits. */
  lemma ConstraintsAdmit(v: Version, t: Version)
    requires WellFormed(t)
    ensures IsCompatible(v, Print(t), Exact) <==> (v.major, v.minor, v.patch) == (t.major, t.minor, t.patch)
    ensures IsCompatible(v, "~" + Print(t), Tilde) <==> (v.major, v.minor) == (t.major, t.minor) && v.patch >= t.patch
    ensures !IsCompatible(v, Print(t), Range)
  {
    assert "" + Print(t) == Print(t);
    ConstraintNamesVersion(v, t, "", Exact);
    ConstraintNamesVersion(v, t, "~", Tilde);
    ConstraintNamesVersion(v, t, "", Range);
  }

  /** A constraint that is no version admits nothing, unless it is for the latest, which admits all. */
  lemma UnreadableConstraint(v: Version, constraint: string, c: Constraint)
    ensures c == Latest ==> IsCompatible(v, constraint, c)
    ensures c != Latest && Parse(StripLeft(constraint, {'^', '~'})) == None ==> !IsCompatible(v, constraint, c)
  {
  }

  /** A caret upgrade of a caret upgrade is a caret upgrade. */
  lemma CaretIsTransitive(u: Version, v: Version, w: Version)
    requires WellFormed(v) && WellFormed(w)
    ensures IsCompatible(u, "^" + Print(v), Caret) && IsCompatible(v, "^" + Print(w), Caret)
      ==> IsCompatible(u, "^" + Print(w), Caret)
  {
    ConstraintNamesVersion(u, v, "^", Caret);
    ConstraintNamesVersion(v, w, "^", Caret);
    ConstraintNamesVersion(u, w, "^", Caret);
    hide IsCompatible;
  }

  predicate NotBelow(v: Version, t: Version) {
    v.minor > t.minor || (v.minor == t.minor && v.patch >= t.patch)
  }

  /** Within a major version (within a minor one for 0.x), what a caret admits is exactly the
      versions not below its target, so it is upward closed there. */
  lemma CaretIsUpwardClosed(v: Version, t: Version)
    requires WellFormed(t)
    ensures IsCompatible(v, "^" + Print(t), Caret)
      <==> v.major == t.major && (t.major == 0 ==> v.minor == t.minor) && NotBelow(v, t)
  {
    ConstraintNamesVersion(v, t, "^", Caret);
  }

  /** Pre-releases count as their release: they satisfy constraints they precede. */
  lemma PrereleaseSatisfiesItsRelease(t: Version, pre: string)
    requires WellFormed(t)
    ensures IsCompatible(t.(prerelease := Some(pre)), "^" + Print(t), Caret)
  {
    ConstraintNamesVersion(t.(prerelease := Some(pre)), t, "^", Caret);
  }
}
