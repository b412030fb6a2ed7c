/** Durations that always carry a unit. */
module Duration {
  import opened Wrappers
  import opened Text

  const MINUTE := 60_000
  const HOUR := 3_600_000

  /** The form that reads back as the same value. Days are read but never written. */
  function Render(millis: nat): string {
    if millis == 0 then "0ms"
    else if millis % HOUR == 0 then Digits(millis / HOUR) + "h"
    else if millis % MINUTE == 0 then Digits(millis / MINUTE) + "m"
    else if millis % 1_000 == 0 then Digits(millis / 1_000) + "s"
    else Digits(millis) + "ms"
  }

  function Factor(unit: string): Option<nat> {
    if unit == "ms" then Some(1)
    else if unit == "s" then Some(1_000)
    else if unit == "m" then Some(MINUTE)
    else if unit == "h" then Some(HOUR)
    else if unit == "d" then Some(86_400_000)
    else None
  }

  /** Where the leading digits end. */
  function DigitCount(s: string): (n: nat)
    ensures n <= |s| && AllDigits(s[..n]) && (n < |s| ==> !IsDigit(s[n]))
  {
    if s == "" || !IsDigit(s[0]) then 0
    else
      var n := DigitCount(s[1..]);
      assert s[..n + 1] == [s[0]] + s[1..][..n];
      n + 1
  }

  /** The error carries the text as it was given. */
  function Parse(s: string): Result<nat, string> {
    var raw := Trim(s);
    var n := DigitCount(raw);
    if raw == "" || n == |raw| || n == 0 then Err(s)
    else
      match ParseUnsigned(raw[..n], U64_MAX)
      case None => Err(s)
      case Some(value) =>
        match Factor(raw[n..])
        case None => Err(s)
        case Some(factor) => if value * factor > U64_MAX then Err(s) else Ok(value * factor)
  }

  /** `text` is digits and a unit, and together they mean `millis`, which fits 64 bits. */
  predicate Spells(text: string, digits: string, unit: string, millis: nat) {
    && text == digits + unit && digits != "" && AllDigits(digits)
    && Factor(unit).Some? && millis == Value(digits) * Factor(unit).value <= U64_MAX
  }

  lemma SpellingIsRead(s: string, digits: string, unit: string, millis: nat)
    requires Spells(Trim(s), digits, unit, millis)
    ensures Parse(s) == Ok(millis)
  {
    var raw := Trim(s);
    assert !IsDigit(unit[0]) && raw[|digits|] == unit[0];
    var n := DigitCount(raw);
    assert n == |digits| by {
      assert forall i :: 0 <= i < |digits| ==> raw[i] == digits[i];
      assert forall i :: 0 <= i < n ==> IsDigit(raw[..n][i]) && raw[..n][i] == raw[i];
    }
    assert raw[..n] == digits && raw[n..] == unit;
    assert digits[0] != '+';
    assert Value(digits) <= Value(digits) * Factor(unit).value;
  }

  /** A text is accepted exactly when, trimmed, it spells a 64-bit number of milliseconds with a unit. */
  lemma AcceptsExactly(s: string, millis: nat)
    ensures Parse(s) == Ok(millis) <==> exists digits, unit :: Spells(Trim(s), digits, unit, millis)
  {
    if Parse(s) == Ok(millis) {
      var raw := Trim(s);
      var n := DigitCount(raw);
      assert raw == raw[..n] + raw[n..] && raw[..n][0] != '+';
      assert Spells(raw, raw[..n], raw[n..], millis);
    }
    if digits, unit :| Spells(Trim(s), digits, unit, millis) {
      SpellingIsRead(s, digits, unit, millis);
    }
  }

  lemma RenderSpells(millis: nat) returns (digits: string, unit: string)
    requires millis <= U64_MAX
    ensures Spells(Render(millis), digits, unit, millis)
  {
    if millis == 0 {
      digits, unit := "0", "ms";
      assert "0" == Digits(0) && Render(0) == "0" + "ms";
    } else if millis % HOUR == 0 {
      digits, unit := Digits(millis / HOUR), "h";
    } else if millis % MINUTE == 0 {
      digits, unit := Digits(millis / MINUTE), "m";
    } else if millis % 1_000 == 0 {
      digits, unit := Digits(millis / 1_000), "s";
    } else {
      digits, unit := Digits(millis), "ms";
    }
  }

  /** Reading a rendered duration gives it back, for every 64-bit number of milliseconds. */
  lemma RenderThenParse(millis: nat)
    requires millis <= U64_MAX
    ensures Parse(Render(millis)) == Ok(millis)
  {
    var digits, unit := RenderSpells(millis);
    TrimIsIdentity(Render(millis));
    SpellingIsRead(Render(millis), digits, unit, millis);
  }

  /** A rendered duration is never a bare number, which its reader would take for milliseconds. */
  lemma RenderNamesAUnit(millis: nat)
    requires millis <= U64_MAX
    ensures !AllDigits(Render(millis))
  {
    var digits, unit := RenderSpells(millis);
    assert Render(millis)[|digits|] == unit[0];
  }
}
