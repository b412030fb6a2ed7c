/** PostgreSQL major versions: how they are spelled, and the key they are ordered by. */
module Versions {
  import opened Wrappers
  import opened Text

  /** A major version: one number from 10 onwards, two before it. */
  datatype Major = Major(major: nat, minor: nat)

  /** The versions `MajorLabel` can name at all. */
  predicate Nameable(v: Major) {
    && 9 <= v.major <= U32_MAX
    && v.minor <= U32_MAX
    && (v.major != 9 ==> v.minor == 0)
  }

  /** The versions whose key fits 32 bits and cannot meet that of another version. */
  predicate Recognised(v: Major) {
    Nameable(v) && v.minor < 100 && v.major * 100 + v.minor <= U32_MAX
  }

  type Version = v: Major | Recognised(v) witness Major(18, 0)

  function Label(v: Major): string {
    if v.major == 9 then "9." + Digits(v.minor) else Digits(v.major)
  }

  predicate Older(a: Major, b: Major) {
    a.major < b.major || (a.major == b.major && a.minor < b.minor)
  }

  predicate IsSeparator(c: char) {
    c == '.' || c == ' ' || c == '-' || c == '+' || c == '('
  }

  function SkipToDigit(s: string): string {
    if s != "" && !IsDigit(s[0]) then SkipToDigit(s[1..]) else s
  }

  /** Where the first separator is, or the length when there is none. */
  function FirstSeparator(s: string): (i: nat)
    ensures i <= |s|
    ensures forall k :: 0 <= k < i ==> !IsSeparator(s[k])
    ensures i < |s| ==> IsSeparator(s[i])
  {
    if s == "" || IsSeparator(s[0]) then 0 else 1 + FirstSeparator(s[1..])
  }

  /** What a text such as `18.1 (Debian)`, or a bare `9.6`, says about the major version. */
  function MajorLabel(raw: string): Option<string> {
    var digits := SkipToDigit(Trim(raw));
    var i := FirstSeparator(digits);
    match ParseUnsigned(digits[..i], U32_MAX)
    case None => None
    case Some(major) =>
      if major < 9 then None
      else if major == 9 then
        if i == |digits| then None
        else
          var rest := digits[i + 1..];
          match ParseUnsigned(rest[..FirstSeparator(rest)], U32_MAX)
          case None => None
          case Some(minor) => Some("9." + Digits(minor))
      else Some(Digits(major))
  }

  /** The number by which major versions are compared. */
  function VersionKey(raw: string): Option<nat> {
    match MajorLabel(raw)
    case None => None
    case Some(text) => KeyOfText(text)
  }

  /** The key of a label; a part after the dot that does not parse counts as 0. */
  function KeyOfText(text: string): Option<nat> {
    var dot := FirstDot(text);
    match ParseUnsigned(text[..dot], U32_MAX)
    case None => None
    case Some(major) =>
      var minor := if dot == |text| then 0
                   else var rest := text[dot + 1..];
                        ParseUnsigned(rest[..FirstDot(rest)], U32_MAX).GetOr(0);
      Some(Packed(Major(major, minor)))
  }

  /** `major * 100 + minor`, in 32-bit arithmetic. */
  function Packed(v: Major): nat {
    (v.major * 100 + v.minor) % (U32_MAX + 1)
  }

  function FirstDot(s: string): (i: nat)
    ensures i <= |s|
    ensures forall k :: 0 <= k < i ==> s[k] != '.'
    ensures i < |s| ==> s[i] == '.'
  {
    if s == "" || s[0] == '.' then 0 else 1 + FirstDot(s[1..])
  }

  /** What the callers compare: an unreadable version counts as the oldest of all. */
  function KeyOrZero(raw: string): nat {
    VersionKey(raw).GetOr(0)
  }

  /** A text that starts and ends in a digit is read as it stands. */
  lemma NothingToStrip(text: string)
    requires text != "" && IsDigit(text[0]) && IsDigit(text[|text| - 1])
    ensures SkipToDigit(Trim(text)) == text
  {
    TrimIsIdentity(text);
  }

  /** A number is one component, whichever character would end it. */
  lemma NumberIsOneComponent(n: nat)
    requires n <= U32_MAX
    ensures var s := Digits(n);
            && FirstSeparator(s) == |s| && FirstDot(s) == |s| && s[..|s|] == s
            && ParseUnsigned(s, U32_MAX) == Some(n)
  {
    var s := Digits(n);
    assert FirstSeparator(s) == |s|;
    assert FirstDot(s) == |s|;
    ParseDigits(n, U32_MAX);
  }

  lemma NineIsFirst(minor: nat)
    requires minor <= U32_MAX
    ensures var text := "9." + Digits(minor);
            && FirstSeparator(text) == 1 && FirstDot(text) == 1
            && ParseUnsigned(text[..1], U32_MAX) == Some(9) && text[2..] == Digits(minor)
  {
    var text := "9." + Digits(minor);
    assert text[0] == '9' && text[1] == '.';
    assert text[..1] == "9" == Digits(9);
    ParseDigits(9, U32_MAX);
  }

  /** Reading a label that was printed for a version gives that version's label back. */
  lemma LabelReads(v: Major)
    requires Nameable(v)
    ensures MajorLabel(Label(v)) == Some(Label(v))
  {
    NothingToStrip(Label(v));
    if v.major == 9 {
      NineIsFirst(v.minor);
      NumberIsOneComponent(v.minor);
    } else {
      NumberIsOneComponent(v.major);
    }
  }

  /** Every label that is read is the label of some version. */
  lemma LabelNamesAVersion(raw: string) returns (v: Major)
    requires MajorLabel(raw).Some?
    ensures Nameable(v) && MajorLabel(raw) == Some(Label(v))
  {
    var digits := SkipToDigit(Trim(raw));
    var i := FirstSeparator(digits);
    var major := ParseUnsigned(digits[..i], U32_MAX).value;
    if major == 9 {
      var rest := digits[i + 1..];
      v := Major(9, ParseUnsigned(rest[..FirstSeparator(rest)], U32_MAX).value);
    } else {
      v := Major(major, 0);
    }
  }

  /** Reading a label twice is reading it once, whatever text it came from. */
  lemma MajorLabelIsIdempotent(raw: string)
    requires MajorLabel(raw).Some?
    ensures MajorLabel(MajorLabel(raw).value) == MajorLabel(raw)
  {
    var v := LabelNamesAVersion(raw);
    LabelReads(v);
  }

  lemma KeyOfLabel(v: Major)
    requires Nameable(v)
    ensures VersionKey(Label(v)) == Some(Packed(v)) && KeyOrZero(Label(v)) == Packed(v)
  {
    LabelReads(v);
    if v.major == 9 {
      NineIsFirst(v.minor);
      NumberIsOneComponent(v.minor);
    } else {
      NumberIsOneComponent(v.major);
    }
  }

  /** Two texts have the same key as soon as they name the same label. */
  lemma KeyFollowsLabel(raw: string)
    requires MajorLabel(raw).Some?
    ensures VersionKey(raw) == VersionKey(MajorLabel(raw).value)
  {
    MajorLabelIsIdempotent(raw);
  }

  lemma PackedWithoutWrap(v: Major)
    requires v.major * 100 + v.minor <= U32_MAX
    ensures Packed(v) == v.major * 100 + v.minor
  {
  }

  /** The key is an order embedding: it neither merges two versions nor swaps them. */
  lemma KeyIsAnOrderEmbedding(a: Major, b: Major)
    requires Recognised(a) && Recognised(b)
    ensures KeyOrZero(Label(a)) < KeyOrZero(Label(b)) <==> Older(a, b)
    ensures KeyOrZero(Label(a)) == KeyOrZero(Label(b)) <==> a == b
    ensures KeyOrZero(Label(a)) > 0
  {
    KeyOfLabel(a);
    KeyOfLabel(b);
    PackedWithoutWrap(a);
    PackedWithoutWrap(b);
  }

  /** If a text can be read at all, it names a version whose key is its own. */
  ghost predicate InRange(raw: string) {
    MajorLabel(raw).Some? ==> exists v: Version :: MajorLabel(raw) == Some(Label(v))
  }

  /**
    Of any two texts, the callers see the same version exactly if both name the same
    one or neither can be read: two that cannot be read always pass for the same.
  */
  lemma SameKeyExactly(a: string, b: string)
    requires InRange(a) && InRange(b)
    ensures KeyOrZero(a) == KeyOrZero(b) <==> MajorLabel(a) == MajorLabel(b)
    ensures KeyOrZero(a) == 0 <==> MajorLabel(a).None?
  {
    hide MajorLabel, Recognised, Label;
    if MajorLabel(a).Some? {
      KeyFollowsLabel(a);
      var v: Version :| MajorLabel(a) == Some(Label(v));
      KeyIsAnOrderEmbedding(v, v);
      if MajorLabel(b).Some? {
        KeyFollowsLabel(b);
        var w: Version :| MajorLabel(b) == Some(Label(w));
        KeyIsAnOrderEmbedding(v, w);
      }
    } else if MajorLabel(b).Some? {
      KeyFollowsLabel(b);
      var w: Version :| MajorLabel(b) == Some(Label(w));
      KeyIsAnOrderEmbedding(w, w);
    }
  }

  /** Versions before 9 cannot be read, so data of one passes for data of another. */
  lemma OldVersionsPassForEachOther()
    ensures MajorLabel("8").None? && MajorLabel("7").None? && KeyOrZero("8") == KeyOrZero("7") == 0
  {
    assert Digits(8) == "8" && Digits(7) == "7";
    NothingToStrip(Digits(8));
    NothingToStrip(Digits(7));
    NumberIsOneComponent(8);
    NumberIsOneComponent(7);
  }

  /**
    The bound on the 9.x minor is exact: a 9.x key stays below the keys of all
    later versions just when its minor is below 100, and 9.100 has the key of 10.
  */
  lemma NinesStayBelow(minor: nat, ten: Major)
    requires 900 + minor <= U32_MAX && ten == Major(10, 0)
    ensures KeyOrZero(Label(Major(9, minor))) < KeyOrZero(Label(ten)) <==> minor < 100
    ensures KeyOrZero(Label(Major(9, minor))) == KeyOrZero(Label(ten)) <==> minor == 100
  {
    var nine := Major(9, minor);
    KeyOfLabel(nine);
    KeyOfLabel(ten);
    PackedWithoutWrap(nine);
    PackedWithoutWrap(ten);
  }
}
