/**
  The two configuration files an instance starts with: the managed one, then the
  user's. PostgreSQL reads them in that order, and the last setting of a name wins.
*/
module Conf {
  import opened Wrappers
  import opened Text
  import opened Sorting

  type Setting = (string, string)

  // ---- what is written ---------------------------------------------

  datatype Value = Quoted(text: string) | Bare(word: string)

  /** One line of a file. What a comment says is of no consequence to the reader, and is left out. */
  datatype Entry =
    | Comment
    | Blank
    | Assign(key: string, value: Value)

  /** Double every single quote. */
  function Doubled(s: string): string {
    if s == "" then "" else (if s[0] == '\'' then "''" else [s[0]]) + Doubled(s[1..])
  }

  function Quote(s: string): string {
    "'" + Doubled(s) + "'"
  }

  function ValueText(v: Value): string {
    match v
    case Quoted(text) => Quote(text)
    case Bare(word) => word
  }

  function LineOf(e: Entry): string {
    match e
    case Comment => "#"
    case Blank => ""
    case Assign(key, value) => key + " = " + ValueText(value)
  }

  function TextOf(entries: seq<Entry>): string {
    if entries == [] then "" else LineOf(entries[0]) + "\n" + TextOf(entries[1..])
  }

  // ---- how it is read ----------------------------------------------

  predicate IsBlank(c: char) {
    c == ' ' || c == '\t' || c == '\r'
  }

  function SkipBlanks(s: string): (r: string)
    ensures |r| <= |s|
  {
    if s != "" && IsBlank(s[0]) then SkipBlanks(s[1..]) else s
  }

  predicate IsNameStart(c: char) {
    IsLower(c) || 'A' <= c <= 'Z'
  }

  predicate IsNameChar(c: char) {
    IsNameStart(c) || IsDigit(c) || c == '_'
  }

  function NameLength(s: string): (n: nat)
    ensures n <= |s|
  {
    if s == "" || !IsNameChar(s[0]) then 0 else 1 + NameLength(s[1..])
  }

  predicate IsWordChar(c: char) {
    IsNameChar(c) || c == '-' || c == '.' || c == '/' || c == ':'
  }

  function WordLength(s: string): (n: nat)
    ensures n <= |s|
  {
    if s == "" || !IsWordChar(s[0]) then 0 else 1 + WordLength(s[1..])
  }

  /** One character for an escaped one; which one does not matter here, only that it is one. */
  function Escaped(c: char): char {
    if c == 'n' then '\n' else if c == 't' then '\t' else if c == 'r' then '\r' else c
  }

  /**
    The text of a quoted string, from behind its opening quote, and what follows
    its closing quote: a doubled quote is one, a backslash escapes, and a string
    ends on its line.
  */
  function Unquote(s: string): Option<(string, string)> {
    if s == "" || s[0] == '\n' then None
    else if s[0] == '\'' then
      if |s| > 1 && s[1] == '\'' then Prepend('\'', Unquote(s[2..])) else Some(("", s[1..]))
    else if s[0] == '\\' then
      if |s| < 2 || s[1] == '\n' then None else Prepend(Escaped(s[1]), Unquote(s[2..]))
    else Prepend(s[0], Unquote(s[1..]))
  }

  function Prepend(c: char, r: Option<(string, string)>): Option<(string, string)> {
    if r.Some? then Some(([c] + r.value.0, r.value.1)) else None
  }

  predicate EndsLine(s: string) {
    var rest := SkipBlanks(s);
    rest == "" || rest[0] == '#'
  }

  function ReadValue(s: string): Option<string> {
    if s != "" && s[0] == '\'' then
      match Unquote(s[1..])
      case None => None
      case Some((text, rest)) => if EndsLine(rest) then Some(text) else None
    else
      var n := WordLength(s);
      if n == 0 || !EndsLine(s[n..]) then None else Some(s[..n])
  }

  function SkipEquals(s: string): string {
    if s != "" && s[0] == '=' then SkipBlanks(s[1..]) else s
  }

  /** What a line asks for: a setting, or that the file or directory at a path be read in its place. */
  datatype Item = Set(name: string, value: string) | Include(directive: string, path: string)

  predicate IsDirective(name: string) {
    name == "include" || name == "include_if_exists" || name == "include_dir"
  }

  /** The name alone decides, with or without an equals sign behind it. */
  function ItemFor(s: Setting): Item {
    if IsDirective(s.0) then Include(s.0, s.1) else Set(s.0, s.1)
  }

  function Items(settings: seq<Setting>): (items: seq<Item>)
    ensures |items| == |settings|
    ensures forall i :: 0 <= i < |items| ==> items[i] == ItemFor(settings[i])
  {
    seq(|settings|, i requires 0 <= i < |settings| => ItemFor(settings[i]))
  }

  /** What a line asks for: nothing, one item, or it is a syntax error. */
  function ReadLine(line: string): Option<seq<Item>> {
    var s := SkipBlanks(line);
    if s == "" || s[0] == '#' then Some([])
    else if !IsNameStart(s[0]) then None
    else
      var n := NameLength(s);
      match ReadValue(SkipEquals(SkipBlanks(s[n..])))
      case None => None
      case Some(value) => Some([ItemFor((ToAsciiLowercase(s[..n]), value))])
  }

  function LineEnd(s: string): (n: nat)
    ensures n <= |s|
  {
    if s == "" || s[0] == '\n' then 0 else 1 + LineEnd(s[1..])
  }

  /** The items of a file in order, or none at all if one line is malformed. */
  function ReadFile(s: string): Option<seq<Item>>
    decreases |s|
  {
    if s == "" then Some([])
    else
      var n := LineEnd(s);
      match ReadLine(s[..n])
      case None => None
      case Some(first) =>
        match if n == |s| then Some([]) else ReadFile(s[n + 1..])
        case None => None
        case Some(rest) => Some(first + rest)
  }

  /** The settings that a directive and its path come to on some host, if they can be read. */
  type Files = (string, string) -> Option<seq<Setting>>

  function ComesTo(item: Item, files: Files): Option<seq<Setting>> {
    match item
    case Set(name, value) => Some([(name, value)])
    case Include(directive, path) => files(directive, path)
  }

  /** The settings in force after some items. A directive that fails fails the whole file. */
  function InForce(items: seq<Item>, files: Files): Option<seq<Setting>> {
    if items == [] then Some([])
    else
      var first := ComesTo(items[0], files);
      var rest := InForce(items[1..], files);
      if first.Some? && rest.Some? then Some(first.value + rest.value) else None
  }

  /** The last setting of a name wins. */
  function Lookup(settings: seq<Setting>, name: string): Option<string> {
    if settings == [] then None
    else
      var last := settings[|settings| - 1];
      if last.0 == name then Some(last.1) else Lookup(settings[..|settings| - 1], name)
  }

  // ---- reading what was written ------------------------------------

  predicate Readable(s: string) {
    '\n' !in s && '\\' !in s
  }

  lemma {:induction false} DoubledIsUndoubled(s: string, rest: string)
    requires Readable(s) && (rest == "" || rest[0] != '\'')
    ensures Unquote(Doubled(s) + "'" + rest) == Some((s, rest))
  {
    hide Unquote;
    if s == "" {
      assert Doubled(s) + "'" + rest == "'" + rest;
      QuoteCloses(rest);
    } else {
      var more := Doubled(s[1..]) + "'" + rest;
      DoubledIsUndoubled(s[1..], rest);
      OneCharacterIsUndoubled(s[0], more);
      assert Doubled(s) + "'" + rest == (if s[0] == '\'' then "''" else [s[0]]) + more;
      assert s == [s[0]] + s[1..];
    }
  }

  lemma QuoteCloses(rest: string)
    requires rest == "" || rest[0] != '\''
    ensures Unquote("'" + rest) == Some(("", rest))
  {
    assert ("'" + rest)[1..] == rest;
  }

  lemma OneCharacterIsUndoubled(c: char, more: string)
    requires c != '\n' && c != '\\'
    ensures Unquote((if c == '\'' then "''" else [c]) + more) == Prepend(c, Unquote(more))
  {
    if c == '\'' {
      assert ("''" + more)[2..] == more;
    } else {
      assert ([c] + more)[1..] == more;
    }
  }

  /** Two for each character and one for each quote: what is left of a text after it was read. */
  function Weight(s: string): nat {
    if s == "" then 0 else Weight(s[1..]) + if s[0] == '\'' then 1 else 2
  }

  lemma {:induction false} WeightOfDoubled(s: string, rest: string)
    ensures Weight(Doubled(s) + "'" + rest) == 2 * |s| + 1 + Weight(rest)
  {
    var all := Doubled(s) + "'" + rest;
    if s == "" {
      assert all == "'" + rest && all[1..] == rest;
    } else {
      WeightOfDoubled(s[1..], rest);
      var more := Doubled(s[1..]) + "'" + rest;
      if s[0] == '\'' {
        assert all[0] == '\'' && all[1] == '\'' && all[1..][1..] == more;
        assert all[1..][0] == '\'';
      } else {
        assert all[0] == s[0] && all[1..] == more;
      }
    }
  }

  /** Whatever is read weighs at least twice its length and one, and what is not read still ends in `tail`. */
  lemma {:induction false} ReadingWeighs(s: string, tail: string)
    requires '\'' !in tail && |tail| <= |s| && s[|s| - |tail|..] == tail
    ensures Unquote(s).Some? ==> 2 * |Unquote(s).value.0| + 1 + Weight(tail) <= Weight(s)
    decreases |s|
  {
    var r := Unquote(s);
    if r.Some? {
      if |s| == |tail| {
        assert s == tail;
        NeverEnds(s);
      } else if s[0] == '\'' && !(|s| > 1 && s[1] == '\'') {
        SuffixWeighsLess(s[1..], tail);
      } else {
        var n := if s[0] == '\'' || s[0] == '\\' then 2 else 1;
        if |s| - n < |tail| {
          assert s[n..] == tail[1..];
          NeverEnds(s[n..]);
        } else {
          assert s[n..][|s[n..]| - |tail|..] == tail;
          ReadingWeighs(s[n..], tail);
          assert s[1..][1..] == s[2..] || |s| < 2;
          assert n == 2 ==> s[1..][0] == s[1];
        }
      }
    }
  }

  lemma {:induction false} NeverEnds(s: string)
    requires '\'' !in s
    ensures Unquote(s).None?
    decreases |s|
  {
    if s != "" && s[0] != '\n' {
      if s[0] == '\\' && |s| >= 2 {
        NeverEnds(s[2..]);
      } else if s[0] != '\\' {
        NeverEnds(s[1..]);
      }
    }
  }

  lemma {:induction false} SuffixWeighsLess(s: string, tail: string)
    requires |tail| <= |s| && s[|s| - |tail|..] == tail
    ensures Weight(tail) <= Weight(s)
  {
    if |s| == |tail| {
      assert s == tail;
    } else {
      assert s[1..][|s[1..]| - |tail|..] == tail;
      SuffixWeighsLess(s[1..], tail);
    }
  }

  /** From its first newline or backslash on, a text is not read back: either it is an error, or it is shorter. */
  lemma {:induction false} UnreadableIsLost(s: string, tail: string)
    requires !Readable(s) && '\'' !in tail
    ensures Unquote(Doubled(s) + "'" + tail).Some? ==> |Unquote(Doubled(s) + "'" + tail).value.0| < |s|
  {
    var all := Doubled(s) + "'" + tail;
    var more := Doubled(s[1..]) + "'" + tail;
    assert s == [s[0]] + s[1..];
    if s[0] == '\'' {
      assert all[0] == '\'' && all[1] == '\'' && all[2..] == more;
      UnreadableIsLost(s[1..], tail);
    } else {
      assert all[0] == s[0] && all[1..] == more;
      if s[0] == '\\' {
        assert all[2..] == more[1..];
        assert more[1..][|more[1..]| - |tail|..] == tail;
        WeightOfDoubled(s[1..], tail);
        ReadingWeighs(more[1..], tail);
      } else if s[0] != '\n' {
        UnreadableIsLost(s[1..], tail);
      }
    }
  }

  /**
    A value comes back as it was written exactly when it holds no newline and no
    backslash. Quoting doubles the quotes and leaves backslashes alone, but the
    reader takes them for escapes.
  */
  lemma QuotingSurvivesExactlyWhenReadable(s: string)
    ensures ReadValue(Quote(s)) == Some(s) <==> Readable(s)
  {
    assert Quote(s)[1..] == Doubled(s) + "'" + "";
    if Readable(s) {
      DoubledIsUndoubled(s, "");
    } else {
      UnreadableIsLost(s, "");
    }
  }

  // ---- reading a file back -----------------------------------------

  predicate ValidName(name: string) {
    name != "" && IsNameStart(name[0]) && forall i :: 0 <= i < |name| ==> IsNameChar(name[i])
  }

  predicate IsNormal(name: string) {
    ValidName(name) && ToAsciiLowercase(name) == name
  }

  predicate ValidValue(v: Value) {
    match v
    case Quoted(text) => Readable(text)
    case Bare(word) => word != "" && forall i :: 0 <= i < |word| ==> IsWordChar(word[i])
  }

  predicate ValidEntry(e: Entry) {
    match e
    case Comment => true
    case Blank => true
    case Assign(key, value) => IsNormal(key) && ValidValue(value)
  }

  function Plain(v: Value): string {
    match v
    case Quoted(text) => text
    case Bare(word) => word
  }

  /** What an entry was meant to set. */
  function SettingOf(e: Entry): seq<Setting> {
    if e.Assign? then [(e.key, Plain(e.value))] else []
  }

  function SettingsOf(entries: seq<Entry>): seq<Setting> {
    if entries == [] then [] else SettingOf(entries[0]) + SettingsOf(entries[1..])
  }

  lemma {:induction false} NameIsWhole(name: string, rest: string)
    requires forall i :: 0 <= i < |name| ==> IsNameChar(name[i])
    requires rest != "" && !IsNameChar(rest[0])
    ensures NameLength(name + rest) == |name|
  {
    if name == "" {
      assert name + rest == rest;
    } else {
      assert (name + rest)[1..] == name[1..] + rest;
      NameIsWhole(name[1..], rest);
    }
  }

  lemma {:induction false} WordIsWhole(word: string)
    requires forall i :: 0 <= i < |word| ==> IsWordChar(word[i])
    ensures WordLength(word) == |word|
  {
    if word != "" {
      WordIsWhole(word[1..]);
    }
  }

  lemma ValueIsRead(v: Value)
    requires ValidValue(v)
    ensures ReadValue(ValueText(v)) == Some(Plain(v))
    ensures ValueText(v) != "" && !IsBlank(ValueText(v)[0])
  {
    match v
    case Quoted(text) => QuotingSurvivesExactlyWhenReadable(text);
    case Bare(word) =>
      WordIsWhole(word);
      assert word[..|word|] == word;
  }

  lemma AssignmentIsRead(key: string, text: string)
    requires IsNormal(key) && text != "" && !IsBlank(text[0])
    ensures ReadLine(key + " = " + text)
         == if ReadValue(text).None? then None else Some([ItemFor((key, ReadValue(text).value))])
  {
    hide ReadValue, NameLength, ItemFor, SkipBlanks, SkipEquals, ToAsciiLowercase, IsNameChar;
    var line := key + " = " + text;
    NameIsWhole(key, " = " + text) by {
      EqualsEndsName(key, text);
    }
    assert line == key + (" = " + text);
    assert line[0] == key[0] && line[..|key|] == key && line[|key|..] == " = " + text;
    ValueIsNext(text);
    NameIsNext(key, line);
  }

  lemma EqualsEndsName(key: string, text: string)
    requires IsNormal(key)
    ensures forall i :: 0 <= i < |key| ==> IsNameChar(key[i])
    ensures " = " + text != "" && !IsNameChar((" = " + text)[0])
  {
  }

  lemma NameIsNext(key: string, line: string)
    requires IsNormal(key) && line != "" && line[0] == key[0]
    ensures SkipBlanks(line) == line && line[0] != '#' && IsNameStart(line[0]) && ToAsciiLowercase(key) == key
  {
  }

  lemma ValueIsNext(text: string)
    requires text != "" && !IsBlank(text[0])
    ensures SkipEquals(SkipBlanks(" = " + text)) == text
  {
    var after := " = " + text;
    assert after[1..] == "= " + text && after[1..][1..] == " " + text && (" " + text)[1..] == text;
    assert SkipBlanks(text) == text;
    assert SkipBlanks(" " + text) == text;
    assert SkipBlanks(after) == "= " + text;
  }

  lemma EntryIsRead(e: Entry)
    requires ValidEntry(e)
    ensures ReadLine(LineOf(e)) == Some(Items(SettingOf(e)))
  {
    match e
    case Comment =>
    case Blank =>
    case Assign(key, value) => AssignmentEntryIsRead(key, value);
  }

  lemma AssignmentEntryIsRead(key: string, value: Value)
    requires IsNormal(key) && ValidValue(value)
    ensures ReadLine(LineOf(Assign(key, value))) == Some(Items([(key, Plain(value))]))
  {
    hide ReadLine, ReadValue, ValueText, ToAsciiLowercase, IsNormal, ValidValue, ItemFor;
    ValueIsRead(value);
    AssignmentIsRead(key, ValueText(value));
    assert Items([(key, Plain(value))]) == [ItemFor((key, Plain(value)))];
  }

  lemma {:induction false} DoubledStaysOnItsLine(s: string)
    requires '\n' !in s
    ensures '\n' !in Doubled(s)
  {
    if s != "" {
      DoubledStaysOnItsLine(s[1..]);
    }
  }

  lemma EntryIsOneLine(e: Entry)
    requires ValidEntry(e)
    ensures '\n' !in LineOf(e)
  {
    match e
    case Comment =>
    case Blank =>
    case Assign(key, value) =>
      assert '\n' !in key;
      match value {
        case Quoted(text) => DoubledStaysOnItsLine(text);
        case Bare(word) => assert '\n' !in word;
      }
  }

  lemma {:induction false} LineIsWhole(line: string, rest: string)
    requires '\n' !in line
    ensures LineEnd(line + "\n" + rest) == |line|
  {
    var s := line + "\n" + rest;
    if line != "" {
      assert s[1..] == line[1..] + "\n" + rest;
      LineIsWhole(line[1..], rest);
    }
  }

  /** Entries that are valid but for what a quoted value may hold. */
  predicate WellNamed(e: Entry) {
    e.Assign? ==> IsNormal(e.key) && (e.value.Bare? ==> ValidValue(e.value))
  }

  predicate AllValid(entries: seq<Entry>) {
    forall i :: 0 <= i < |entries| ==> ValidEntry(entries[i])
  }

  predicate AllNamed(entries: seq<Entry>) {
    forall i :: 0 <= i < |entries| ==> WellNamed(entries[i])
  }

  lemma {:induction false} LineEndSkips(a: string, b: string)
    requires '\n' !in a
    ensures LineEnd(a + b) == |a| + LineEnd(b)
  {
    if a == "" {
      assert a + b == b;
    } else {
      assert (a + b)[1..] == a[1..] + b;
      LineEndSkips(a[1..], b);
    }
  }

  /** Cut at its first newline, a doubled text is the double of the text cut there. */
  lemma {:induction false} DoubledIsCut(s: string, rest: string)
    requires '\n' in s
    ensures var k := LineEnd(s);
            && k < |s| && LineEnd(Doubled(s) + rest) == |Doubled(s[..k])|
            && (Doubled(s) + rest)[..|Doubled(s[..k])|] == Doubled(s[..k])
  {
    var all := Doubled(s) + rest;
    if s[0] != '\n' {
      DoubledIsCut(s[1..], rest);
      var k, first := LineEnd(s), if s[0] == '\'' then "''" else [s[0]];
      var more := Doubled(s[1..]) + rest;
      assert s[..k][1..] == s[1..][..k - 1] && s[..k][0] == s[0];
      assert all == first + more;
      LineEndSkips(first, more);
      assert all[..|first| + |Doubled(s[1..][..k - 1])|] == first + more[..|Doubled(s[1..][..k - 1])|];
    }
  }

  /** What an unreadable value leaves on its line is not read as that value. */
  lemma CutValueIsLost(s: string, rest: string)
    requires !Readable(s)
    ensures var all := Quote(s) + "\n" + rest;
            && LineEnd(all) > 0 && ReadValue(all[..LineEnd(all)]) != Some(s)
  {
    var all := Quote(s) + "\n" + rest;
    if '\n' in s {
      var k, tail := LineEnd(s), "'\n" + rest;
      assert all == "'" + (Doubled(s) + tail);
      DoubledIsCut(s, tail);
      LineEndSkips("'", Doubled(s) + tail);
      var line := all[..LineEnd(all)];
      assert line[1..] == Doubled(s[..k]);
      WeightOfDoubled(s[..k], "");
      QuoteWeighs(Doubled(s[..k]));
      assert Doubled(s[..k]) + "'" + "" == Doubled(s[..k]) + "'";
      ReadingWeighs(Doubled(s[..k]), "");
    } else {
      DoubledStaysOnItsLine(s);
      assert Quote(s)[0] == '\'';
      LineIsWhole(Quote(s), rest);
      assert all[..|Quote(s)|] == Quote(s);
      QuotingSurvivesExactlyWhenReadable(s);
    }
  }

  lemma {:induction false} QuoteWeighs(s: string)
    ensures Weight(s + "'") == Weight(s) + 1
  {
    if s == "" {
      assert s + "'" == "'" && "'"[1..] == "";
    } else {
      assert (s + "'")[1..] == s[1..] + "'";
      QuoteWeighs(s[1..]);
    }
  }

  /** A file whose first entry is not valid does not begin with what that entry was meant to set. */
  lemma FirstEntryIsLost(e: Entry, rest: string)
    requires WellNamed(e) && !ValidEntry(e)
    ensures var file := ReadFile(LineOf(e) + "\n" + rest);
            file.Some? ==> file.value != [] && file.value[0] != ItemFor((e.key, Plain(e.value)))
  {
    hide ReadValue, Quote, ValidName, ReadLine, ToAsciiLowercase;
    var key, text := e.key, e.value.text;
    var file, value := LineOf(e) + "\n" + rest, Quote(text) + "\n" + rest;
    assert file == (key + " = ") + value;
    NoNewlineInName(key);
    LineEndSkips(key + " = ", value);
    CutValueIsLost(text, rest);
    var cut := value[..LineEnd(value)];
    assert file[..LineEnd(file)] == key + " = " + cut;
    assert cut[0] == '\'' by {
      StartsQuoted(text);
    }
    AssignmentIsRead(key, cut);
  }

  lemma NoNewlineInName(key: string)
    requires IsNormal(key)
    ensures '\n' !in key + " = "
  {
  }

  lemma StartsQuoted(s: string)
    ensures Quote(s) != "" && Quote(s)[0] == '\''
  {
  }

  lemma ItemsOfBoth(a: seq<Setting>, b: seq<Setting>)
    ensures Items(a + b) == Items(a) + Items(b)
  {
  }

  /**
    A file reads as what its entries were meant to set, in order, exactly if they are
    all valid: one newline or backslash in one value, and it is malformed or says
    something else.
  */
  lemma {:induction false} FileIsRead(entries: seq<Entry>)
    requires AllNamed(entries)
    ensures ReadFile(TextOf(entries)) == Some(Items(SettingsOf(entries))) <==> AllValid(entries)
  {
    hide ReadLine, LineOf, LineEnd, ValidEntry, SettingOf, WellNamed, Items;
    if entries == [] {
      ItemsOfNone();
    } else {
      var e, line, rest := entries[0], LineOf(entries[0]), TextOf(entries[1..]);
      ItemsOfBoth(SettingOf(e), SettingsOf(entries[1..]));
      assert forall i :: 0 < i < |entries| ==> entries[i] == entries[1..][i - 1];
      FileIsRead(entries[1..]);
      if ValidEntry(e) {
        EntryIsOneLine(e);
        EntryIsRead(e);
        LineIsWhole(line, rest);
        var s := line + "\n" + rest;
        assert s[..|line|] == line && s[|line| + 1..] == rest;
        assert ReadFile(s) == if ReadFile(rest).None? then None else Some(Items(SettingOf(e)) + ReadFile(rest).value);
        SameBehind(Items(SettingOf(e)), ReadFile(rest), Items(SettingsOf(entries[1..])));
        assert AllValid(entries) <==> AllValid(entries[1..]) by {
          assert entries == [e] + entries[1..];
          BothValid([e], entries[1..]);
          assert forall i :: 0 <= i < |[e]| ==> [e][i] == e;
        }
      } else {
        FirstEntryIsLost(e, rest);
        OnlyAssignmentsAreInvalid(e);
        assert Items(SettingsOf(entries)) == [ItemFor((e.key, Plain(e.value)))] + Items(SettingsOf(entries[1..]));
      }
    }
  }

  lemma SameBehind(first: seq<Item>, read: Option<seq<Item>>, written: seq<Item>)
    ensures read.Some? ==> (first + read.value == first + written <==> read.value == written)
  {
    if read.Some? && first + read.value == first + written {
      assert read.value == (first + read.value)[|first|..];
      assert written == (first + written)[|first|..];
    }
  }

  lemma ItemsOfNone()
    ensures Items([]) == []
  {
  }

  lemma OnlyAssignmentsAreInvalid(e: Entry)
    requires !ValidEntry(e)
    ensures e.Assign? && Items(SettingOf(e)) == [ItemFor((e.key, Plain(e.value)))]
  {
  }

  lemma {:induction false} TextOfBoth(a: seq<Entry>, b: seq<Entry>)
    ensures TextOf(a + b) == TextOf(a) + TextOf(b) && SettingsOf(a + b) == SettingsOf(a) + SettingsOf(b)
  {
    hide LineOf, SettingOf;
    if a == [] {
      assert a + b == b;
      assert TextOf(a) + TextOf(b) == TextOf(b) && SettingsOf(a) + SettingsOf(b) == SettingsOf(b);
    } else {
      assert (a + b)[0] == a[0] && (a + b)[1..] == a[1..] + b;
      TextOfBoth(a[1..], b);
      assert LineOf(a[0]) + "\n" + (TextOf(a[1..]) + TextOf(b)) == (LineOf(a[0]) + "\n" + TextOf(a[1..])) + TextOf(b);
    }
  }

  // ---- the managed file --------------------------------------------

  datatype Archive = Off | On(command: string)

  datatype Standby = Standby(primaryConninfo: string, primarySlotName: string, restoreCommand: Option<string>)

  datatype Recovery = Recovery(restoreCommand: string, targetTime: Option<string>)

  function Joined(words: seq<string>): string {
    if words == [] then ""
    else if |words| == 1 then words[0]
    else words[0] + "," + Joined(words[1..])
  }

  datatype Managed = Managed(
    port: nat,
    archive: Archive,
    preload: seq<string>,
    standby: Option<Standby>,
    recovery: Option<Recovery>
  ) {
    /** No value in it holds a newline or a backslash. */
    predicate Valid() {
      && (archive.On? ==> Readable(archive.command))
      && Readable(Joined(preload))
      && RecoveryReadable() && StandbyReadable()
    }

    predicate StandbyReadable() {
      standby.Some? ==>
        && Readable(standby.value.primaryConninfo) && Readable(standby.value.primarySlotName)
        && (standby.value.restoreCommand.Some? ==> Readable(standby.value.restoreCommand.value))
    }

    predicate RecoveryReadable() {
      recovery.Some? ==>
        && Readable(recovery.value.restoreCommand)
        && (recovery.value.targetTime.Some? ==> Readable(recovery.value.targetTime.value))
    }

    function ArchiveEntries(): seq<Entry> {
      match archive
      case Off =>
        [Comment,
         Comment,
         Assign("archive_mode", Bare("off"))]
      case On(command) =>
        [Assign("archive_mode", Bare("on")), Assign("archive_command", Quoted(command)),
         Assign("archive_timeout", Quoted("5min"))]
    }

    function PreloadEntries(): seq<Entry> {
      if preload == [] then []
      else [Blank, Comment, Assign("shared_preload_libraries", Quoted(Joined(preload)))]
    }

    function RecoveryEntries(): seq<Entry> {
      if recovery.None? then []
      else
        [Blank, Comment, Assign("restore_command", Quoted(recovery.value.restoreCommand))]
        + match recovery.value.targetTime
          case Some(time) =>
            [Assign("recovery_target_time", Quoted(time)), Assign("recovery_target_action", Quoted("promote")),
             Assign("recovery_target_timeline", Quoted("current"))]
          case None =>
            [Comment,
             Comment,
             Assign("recovery_target_timeline", Quoted("current"))]
    }

    function StandbyEntries(): seq<Entry> {
      if standby.None? then []
      else
        [Blank, Comment, Assign("primary_conninfo", Quoted(standby.value.primaryConninfo)),
         Assign("primary_slot_name", Quoted(standby.value.primarySlotName))]
        + match standby.value.restoreCommand
          case Some(command) => [Assign("restore_command", Quoted(command))]
          case None => []
    }

    function ConnectivityEntries(): seq<Entry> {
      [Comment,
       Comment, Blank,
       Comment, Assign("listen_addresses", Quoted("*")),
       Assign("port", Bare(Digits(port))), Assign("unix_socket_directories", Quoted("/pgdata/run"))]
    }

    function WalEntries(): seq<Entry> {
      [Blank, Comment, Assign("wal_level", Quoted("replica")),
       Assign("wal_log_hints", Bare("on")), Assign("max_wal_senders", Bare("10")),
       Assign("max_replication_slots", Bare("10")), Blank, Comment]
    }

    function SupervisionEntries(): seq<Entry> {
      [Blank, Comment, Assign("hot_standby", Bare("on")),
       Assign("hot_standby_feedback", Bare("on")), Blank, Comment,
       Assign("restart_after_crash", Bare("off")), Assign("logging_collector", Bare("off")),
       Assign("log_destination", Quoted("stderr"))]
    }

    function Entries(): seq<Entry> {
      ConnectivityEntries() + WalEntries() + ArchiveEntries() + SupervisionEntries() + PreloadEntries()
      + RecoveryEntries() + StandbyEntries()
    }

    function Render(): string {
      TextOf(Entries())
    }
  }

  // ---- the user's file ---------------------------------------------

  const RESERVED: seq<string> := [
    "archive_command", "archive_mode", "hot_standby", "listen_addresses", "max_replication_slots",
    "max_wal_senders", "port", "primary_conninfo", "primary_slot_name", "recovery_target",
    "recovery_target_action", "recovery_target_lsn", "recovery_target_name", "recovery_target_time",
    "recovery_target_timeline", "recovery_target_xid", "restore_command", "unix_socket_directories",
    "wal_level", "wal_log_hints"
  ]

  datatype ConfError = ReservedParameter(name: string) | InvalidParameterName(key: string)

  function Normal(key: string): string {
    ToAsciiLowercase(Trim(key))
  }

  predicate Reserved(name: string) {
    name in RESERVED
  }

  predicate Accepted(p: Setting) {
    !Reserved(Normal(p.0)) && ValidName(Normal(p.0))
  }

  /** What is wrong with a parameter that is not accepted. */
  function Refusal(p: Setting): ConfError {
    if Reserved(Normal(p.0)) then ReservedParameter(Normal(p.0)) else InvalidParameterName(p.0)
  }

  function ByKey(): (Setting, Setting) -> bool {
    (a: Setting, b: Setting) => NotAfter(a.0, b.0)
  }

  function Header(): seq<Entry> {
    [Comment,
     Comment, Blank]
  }

  function UserEntries(sorted: seq<Setting>): seq<Entry> {
    if sorted == [] then []
    else UserEntries(sorted[..|sorted| - 1])
         + [Assign(Normal(sorted[|sorted| - 1].0), Quoted(sorted[|sorted| - 1].1))]
  }

  function UserFile(params: seq<Setting>): seq<Entry> {
    Header() + UserEntries(Sort(ByKey(), params))
  }

  /** Sorted, so that the file is the same each time; refused by name, never dropped. */
  method RenderUserConf(params: seq<Setting>) returns (r: Result<string, ConfError>)
    ensures r.Ok? <==> forall p :: p in params ==> Accepted(p)
    ensures r.Ok? ==> r.value == TextOf(UserFile(params))
    ensures r.Err? ==> exists p :: p in params && !Accepted(p) && r.error == Refusal(p)
  {
    hide Normal, ValidName, LineOf, TextOf, UserEntries, Reserved, Header;
    var out := TextOf(Header());
    var sorted := Sort(ByKey(), params);
    SortKeepsMembers(params);
    NoEntries();
    assert sorted[..0] == [];
    for n := 0 to |sorted|
      invariant out == TextOf(Header() + UserEntries(sorted[..n]))
      invariant forall i :: 0 <= i < n ==> Accepted(sorted[i])
    {
      var (key, value) := sorted[n];
      assert sorted[n] in params;
      var normalized := Normal(key);
      if Reserved(normalized) {
        return Err(ReservedParameter(normalized));
      }
      if !ValidName(normalized) {
        return Err(InvalidParameterName(key));
      }
      var line := Assign(normalized, Quoted(value));
      OneMoreEntry(sorted, n);
      TextOfOneMore(Header() + UserEntries(sorted[..n]), line);
      out := out + LineOf(line) + "\n";
    }
    assert sorted[..|sorted|] == sorted;
    return Ok(out);
  }

  lemma NoEntries()
    ensures Header() + UserEntries([]) == Header()
  {
  }

  lemma OneMoreEntry(sorted: seq<Setting>, n: nat)
    requires n < |sorted|
    ensures Header() + UserEntries(sorted[..n + 1])
         == (Header() + UserEntries(sorted[..n])) + [Assign(Normal(sorted[n].0), Quoted(sorted[n].1))]
  {
    hide Normal, Header;
    assert sorted[..n + 1][..n] == sorted[..n];
  }

  lemma SortKeepsMembers(params: seq<Setting>)
    ensures |Sort(ByKey(), params)| == |params|
    ensures forall p :: p in params <==> p in Sort(ByKey(), params)
  {
    SortPermutes(ByKey(), params);
    forall p ensures p in params <==> p in Sort(ByKey(), params) {
      assert p in params <==> p in multiset(params);
      assert p in Sort(ByKey(), params) <==> p in multiset(Sort(ByKey(), params));
    }
  }

  lemma TextOfOneMore(entries: seq<Entry>, e: Entry)
    ensures TextOf(entries + [e]) == TextOf(entries) + LineOf(e) + "\n"
  {
    hide LineOf;
    TextOfBoth(entries, [e]);
    assert TextOf([e]) == LineOf(e) + "\n" + "";
  }

  // ---- both files together -----------------------------------------

  lemma {:induction false} LookupBoth(a: seq<Setting>, b: seq<Setting>, name: string)
    ensures Lookup(a + b, name) == if Lookup(b, name).Some? then Lookup(b, name) else Lookup(a, name)
  {
    if b == [] {
      assert a + b == a;
    } else {
      assert (a + b)[..|a + b| - 1] == a + b[..|b| - 1];
      LookupBoth(a, b[..|b| - 1], name);
    }
  }

  lemma {:induction false} LookupNeedsName(s: seq<Setting>, name: string)
    ensures Lookup(s, name).Some? <==> exists i :: 0 <= i < |s| && s[i].0 == name
    ensures Lookup(s, name).Some? ==> (name, Lookup(s, name).value) in s
  {
    if s != [] {
      var front := s[..|s| - 1];
      LookupNeedsName(front, name);
      assert forall i :: 0 <= i < |front| ==> s[i] == front[i];
    }
  }

  function Normalized(sorted: seq<Setting>): (r: seq<Setting>)
    ensures |r| == |sorted|
    ensures forall i :: 0 <= i < |sorted| ==> r[i] == (Normal(sorted[i].0), sorted[i].1)
  {
    seq(|sorted|, i requires 0 <= i < |sorted| => (Normal(sorted[i].0), sorted[i].1))
  }

  lemma {:induction false} UserSettings(sorted: seq<Setting>)
    ensures SettingsOf(UserEntries(sorted)) == Normalized(sorted)
  {
    hide Normal, SettingsOf, TextOf;
    if sorted == [] {
      NothingSet();
    } else {
      var front, last := sorted[..|sorted| - 1], sorted[|sorted| - 1];
      var entry := Assign(Normal(last.0), Quoted(last.1));
      UserSettings(front);
      TextOfBoth(UserEntries(front), [entry]);
      OneSetting(Normal(last.0), last.1);
      assert Normalized(sorted) == Normalized(front) + [(Normal(last.0), last.1)];
    }
  }

  lemma NothingSet()
    ensures SettingsOf([]) == []
  {
  }

  lemma OneSetting(key: string, value: string)
    ensures SettingsOf([Assign(key, Quoted(value))]) == [(key, value)]
  {
    assert [(key, value)] + [] == [(key, value)];
  }

  lemma NormalIsLower(key: string)
    requires ValidName(Normal(key))
    ensures IsNormal(Normal(key))
  {
    hide Trim;
    var name := Normal(key);
    forall i | 0 <= i < |name| ensures ToLower(name[i]) == name[i] {
      assert name[i] == ToLower(Trim(key)[i]);
    }
  }

  lemma {:induction false} UserEntriesAreValid(sorted: seq<Setting>)
    requires forall i :: 0 <= i < |sorted| ==> Accepted(sorted[i])
    ensures AllNamed(UserEntries(sorted)) && |UserEntries(sorted)| == |sorted|
    ensures AllValid(UserEntries(sorted)) <==> forall i :: 0 <= i < |sorted| ==> Readable(sorted[i].1)
  {
    hide Normal, ValidName, IsNormal, Reserved, Readable;
    if sorted != [] {
      var n := |sorted| - 1;
      var front, last := UserEntries(sorted[..n]), Assign(Normal(sorted[n].0), Quoted(sorted[n].1));
      UserEntriesAreValid(sorted[..n]);
      NormalIsLower(sorted[n].0);
      assert UserEntries(sorted) == front + [last];
      BothValid(front, [last]);
      assert ValidEntry([last][0]) <==> Readable(sorted[n].1);
      assert AllValid([last]) <==> ValidEntry([last][0]);
      assert AllValid(front) <==> forall i :: 0 <= i < n ==> Readable(sorted[..n][i].1);
    }
  }

  lemma BothValid(a: seq<Entry>, b: seq<Entry>)
    ensures AllValid(a + b) <==> AllValid(a) && AllValid(b)
    ensures AllNamed(a + b) <==> AllNamed(a) && AllNamed(b)
  {
    hide ValidEntry, WellNamed;
    forall i | 0 <= i < |b| ensures b[i] == (a + b)[|a| + i] {
    }
    forall i | 0 <= i < |a| ensures a[i] == (a + b)[i] {
    }
  }

  /**
    The user's file says the normalised parameters, in the order of their keys: it
    is read as that exactly if every value is readable, and it says nothing else
    than settings exactly if no parameter is named like a directive.
  */
  lemma UserFileIsRead(params: seq<Setting>)
    requires forall p :: p in params ==> Accepted(p)
    ensures var settings := Normalized(Sort(ByKey(), params));
            && SettingsOf(UserFile(params)) == settings
            && (ReadFile(TextOf(UserFile(params))) == Some(Items(settings)) <==> forall p :: p in params ==> Readable(p.1))
            && (OnlySettings(settings) <==> NoDirectives(params))
  {
    hide Accepted, Readable, UserEntries, SettingsOf, ValidEntry, Sort, ReadFile, TextOf, Items, IsDirective, Normal;
    UserFileIsValid(params);
    FileIsRead(UserFile(params));
    var sorted := Sort(ByKey(), params);
    SortKeepsMembers(params);
    assert forall i :: 0 <= i < |sorted| ==> sorted[i] in params;
    if OnlySettings(Normalized(sorted)) {
      forall p | p in params ensures !IsDirective(Normal(p.0)) {
        var i :| 0 <= i < |sorted| && sorted[i] == p;
        assert Normalized(sorted)[i].0 == Normal(p.0);
      }
    }
  }

  lemma UserFileIsValid(params: seq<Setting>)
    requires forall p :: p in params ==> Accepted(p)
    ensures AllNamed(UserFile(params))
    ensures AllValid(UserFile(params)) <==> forall p :: p in params ==> Readable(p.1)
    ensures SettingsOf(UserFile(params)) == Normalized(Sort(ByKey(), params))
  {
    hide Accepted, Readable, UserEntries, SettingsOf, ValidEntry, WellNamed, Sort, AllValid, AllNamed, TextOf, Normal,
         Header;
    var sorted := Sort(ByKey(), params);
    SortedAlike(params);
    UserEntriesAreValid(sorted);
    HeaderIsValid();
    BothValid(Header(), UserEntries(sorted));
    TextOfBoth(Header(), UserEntries(sorted));
    UserSettings(sorted);
    NothingInFront(Normalized(sorted));
  }

  lemma SortedAlike(params: seq<Setting>)
    requires forall p :: p in params ==> Accepted(p)
    ensures var sorted := Sort(ByKey(), params);
            && (forall i :: 0 <= i < |sorted| ==> Accepted(sorted[i]))
            && ((forall p :: p in params ==> Readable(p.1)) <==> forall i :: 0 <= i < |sorted| ==> Readable(sorted[i].1))
  {
    hide Accepted, Readable, Sort;
    SortKeepsMembers(params);
    AllOfASequence(params, Sort(ByKey(), params));
  }

  lemma NothingInFront(settings: seq<Setting>)
    ensures [] + settings == settings
  {
  }

  lemma AllOfASequence(params: seq<Setting>, sorted: seq<Setting>)
    requires forall p :: p in params <==> p in sorted
    ensures (forall p :: p in params ==> Readable(p.1)) <==> forall i :: 0 <= i < |sorted| ==> Readable(sorted[i].1)
  {
    hide Readable;
    forall i | 0 <= i < |sorted| ensures sorted[i] in params {
    }
  }

  lemma HeaderIsValid()
    ensures AllValid(Header()) && AllNamed(Header()) && SettingsOf(Header()) == []
  {
    var h := Header();
    assert h[1..] == [Comment, Blank] && h[1..][1..] == [Blank] && [Blank][1..] == [];
    assert SettingsOf([Blank]) == [];
    assert SettingsOf([Comment, Blank]) == [];
  }

  predicate DistinctParameters(params: seq<Setting>) {
    forall i, j :: 0 <= i < j < |params| ==> Normal(params[i].0) != Normal(params[j].0)
  }

  /** No parameter is named like one of the directives. */
  predicate NoDirectives(params: seq<Setting>) {
    forall p :: p in params ==> !IsDirective(Normal(p.0))
  }

  predicate OnlySettings(settings: seq<Setting>) {
    forall i :: 0 <= i < |settings| ==> !IsDirective(settings[i].0)
  }

  /** Without directives, what is on the host makes no difference. */
  lemma {:induction false} JustSettings(settings: seq<Setting>, files: Files)
    requires OnlySettings(settings)
    ensures InForce(Items(settings), files) == Some(settings)
  {
    if settings != [] {
      JustSettings(settings[1..], files);
      assert Items(settings)[1..] == Items(settings[1..]);
      assert settings == [settings[0]] + settings[1..];
    }
  }

  /**
    Over any managed settings, a user's file without directives leaves every
    reserved parameter alone; any other name has the user's value if the user gave
    one, and then exactly the string supplied.
  */
  lemma UserSettingsOver(managed: seq<Setting>, params: seq<Setting>, files: Files, name: string)
    requires OnlySettings(managed) && NoDirectives(params)
    requires forall p :: p in params ==> Accepted(p)
    ensures var both := InForce(Items(managed + Normalized(Sort(ByKey(), params))), files);
            && both.Some?
            && (Reserved(name) ==> Lookup(both.value, name) == Lookup(managed, name))
            && ((forall p :: p in params ==> Normal(p.0) != name) ==> Lookup(both.value, name) == Lookup(managed, name))
  {
    hide Reserved, Normal, Sort, ValidName, IsDirective, Items;
    var sorted := Sort(ByKey(), params);
    SortKeepsMembers(params);
    LookupBoth(managed, Normalized(sorted), name);
    LookupNeedsName(Normalized(sorted), name);
    forall i | 0 <= i < |sorted| ensures sorted[i] in params && Normalized(sorted)[i].0 == Normal(sorted[i].0) {
    }
    JustSettings(managed + Normalized(sorted), files);
  }

  /** Without directives, a user's parameter has exactly the string supplied, whatever was managed under that name. */
  lemma UserValueIsExact(managed: seq<Setting>, params: seq<Setting>, files: Files, p: Setting)
    requires OnlySettings(managed) && NoDirectives(params)
    requires DistinctParameters(params) && p in params
    ensures var both := InForce(Items(managed + Normalized(Sort(ByKey(), params))), files);
            both.Some? && Lookup(both.value, Normal(p.0)) == Some(p.1)
  {
    hide Normal, Sort, IsDirective, Items, Lookup, DistinctParameters;
    var sorted := Sort(ByKey(), params);
    var user, name := Normalized(sorted), Normal(p.0);
    SortKeepsMembers(params);
    assert forall i :: 0 <= i < |sorted| ==> sorted[i] in params;
    JustSettings(managed + user, files);
    LookupBoth(managed, user, name);
    LookupNeedsName(user, name);
    var i :| 0 <= i < |sorted| && sorted[i] == p;
    assert user[i].0 == name;
    var j := LookupFinds(user, name);
    assert sorted[j] in params;
    OnlyOne(params, p);
  }

  lemma LookupFinds(s: seq<Setting>, name: string) returns (i: nat)
    requires Lookup(s, name).Some?
    ensures i < |s| && s[i] == (name, Lookup(s, name).value)
  {
    LookupNeedsName(s, name);
    i :| 0 <= i < |s| && s[i] == (name, Lookup(s, name).value);
  }

  lemma OnlyOne(params: seq<Setting>, p: Setting)
    requires DistinctParameters(params) && p in params
    ensures forall q :: q in params && Normal(q.0) == Normal(p.0) ==> q == p
  {
    hide Normal;
    var a :| 0 <= a < |params| && params[a] == p;
    forall q | q in params && Normal(q.0) == Normal(p.0) ensures q == p {
      var b :| 0 <= b < |params| && params[b] == q;
      assert a == b;
    }
  }

  // ---- parameters that are directives ------------------------------

  lemma {:induction false} InForceBoth(a: seq<Item>, b: seq<Item>, files: Files)
    ensures InForce(a + b, files)
         == if InForce(a, files).Some? && InForce(b, files).Some?
            then Some(InForce(a, files).value + InForce(b, files).value) else None
  {
    if a == [] {
      assert a + b == b;
      assert InForce(b, files).Some? ==> [] + InForce(b, files).value == InForce(b, files).value;
    } else {
      assert (a + b)[0] == a[0] && (a + b)[1..] == a[1..] + b;
      InForceBoth(a[1..], b, files);
      var first := ComesTo(a[0], files);
      if first.Some? && InForce(a[1..], files).Some? && InForce(b, files).Some? {
        assert first.value + (InForce(a[1..], files).value + InForce(b, files).value)
            == (first.value + InForce(a[1..], files).value) + InForce(b, files).value;
      }
    }
  }

  /** A host on which every file says one thing. */
  function Everywhere(s: Setting): Files {
    (directive, path) => Some([s])
  }

  lemma {:induction false} OnlyIncludesSet(items: seq<Item>, s: Setting)
    requires forall i :: 0 <= i < |items| && items[i].Set? ==> items[i].name != s.0
    ensures var now := InForce(items, Everywhere(s));
            && now.Some?
            && (Lookup(now.value, s.0) == if exists i :: 0 <= i < |items| && items[i].Include? then Some(s.1) else None)
  {
    if items != [] {
      var rest := InForce(items[1..], Everywhere(s));
      OnlyIncludesSet(items[1..], s);
      assert forall i :: 0 < i < |items| ==> items[i] == items[1..][i - 1];
      var first := if items[0].Set? then [(items[0].name, items[0].value)] else [s];
      LookupBoth(first, rest.value, s.0);
      assert Lookup(first, s.0) == if items[0].Set? then None else Some(s.1);
    }
  }

  /** One directive among accepted parameters, and a reserved name can have any value: what the file it names says. */
  lemma IncludeOverrides(managed: seq<Setting>, params: seq<Setting>, name: string, value: string)
    requires OnlySettings(managed) && !NoDirectives(params) && Reserved(name)
    requires forall p :: p in params ==> Accepted(p)
    ensures var now := InForce(Items(managed + Normalized(Sort(ByKey(), params))), Everywhere((name, value)));
            now.Some? && Lookup(now.value, name) == Some(value)
  {
    hide Reserved, Normal, Sort, ValidName, IsDirective;
    var sorted, files := Sort(ByKey(), params), Everywhere((name, value));
    var user := Normalized(sorted);
    SortKeepsMembers(params);
    forall i | 0 <= i < |user| ensures user[i].0 != name {
      assert sorted[i] in params;
    }
    var p :| p in params && IsDirective(Normal(p.0));
    var i :| 0 <= i < |sorted| && sorted[i] == p;
    assert Items(user)[i].Include?;
    OnlyIncludesSet(Items(user), (name, value));
    JustSettings(managed, files);
    ItemsOfBoth(managed, user);
    InForceBoth(Items(managed), Items(user), files);
    LookupBoth(managed, InForce(Items(user), files).value, name);
  }

  // ---- what the managed file says ----------------------------------

  predicate LowerName(s: string) {
    s != "" && IsLower(s[0]) && forall i :: 0 <= i < |s| ==> IsLower(s[i]) || IsDigit(s[i]) || s[i] == '_'
  }

  /** A name that cannot be a directive's. */
  predicate ManagedName(s: string) {
    LowerName(s) && s[0] != 'i'
  }

  lemma LowerNameIsNormal(s: string)
    requires LowerName(s)
    ensures IsNormal(s)
  {
    assert forall i :: 0 <= i < |s| ==> ToLower(s[i]) == s[i];
  }

  predicate NamedPlainly(entries: seq<Entry>) {
    forall i :: 0 <= i < |entries| ==> (entries[i].Assign? ==> ManagedName(entries[i].key))
  }

  predicate ValuesValid(entries: seq<Entry>) {
    forall i :: 0 <= i < |entries| ==> (entries[i].Assign? ==> ValidValue(entries[i].value))
  }

  predicate WordsValid(entries: seq<Entry>) {
    forall i :: 0 <= i < |entries| ==> (entries[i].Assign? && entries[i].value.Bare? ==> ValidValue(entries[i].value))
  }

  /** What makes such entries a proper file: nothing but the quoted values can be wrong. */
  predicate Proper(entries: seq<Entry>, fine: bool) {
    NamedPlainly(entries) && WordsValid(entries) && (ValuesValid(entries) <==> fine)
  }

  lemma ProperIsValid(entries: seq<Entry>, fine: bool)
    requires Proper(entries, fine)
    ensures AllNamed(entries) && OnlySettings(SettingsOf(entries)) && (AllValid(entries) <==> fine)
  {
    hide LowerName, ValidValue, IsNormal, SettingsOf, IsDirective;
    forall i | 0 <= i < |entries| && entries[i].Assign? ensures IsNormal(entries[i].key) {
      LowerNameIsNormal(entries[i].key);
    }
    if AllValid(entries) {
      forall i | 0 <= i < |entries| && entries[i].Assign? ensures ValidValue(entries[i].value) {
        assert ValidEntry(entries[i]);
      }
    }
    NoneIsADirective(entries);
  }

  lemma {:induction false} NoneIsADirective(entries: seq<Entry>)
    requires NamedPlainly(entries)
    ensures OnlySettings(SettingsOf(entries))
  {
    if entries != [] {
      NoneIsADirective(entries[1..]);
    }
  }

  lemma ProperBoth(a: seq<Entry>, b: seq<Entry>, fine: bool, also: bool)
    requires Proper(a, fine) && Proper(b, also)
    ensures Proper(a + b, fine && also)
  {
    hide ManagedName, ValidValue;
    forall i | 0 <= i < |b| ensures b[i] == (a + b)[|a| + i] {
    }
    forall i | 0 <= i < |a| ensures a[i] == (a + b)[i] {
    }
  }

  lemma ConnectivityNames()
    ensures ManagedName("listen_addresses")
    ensures ManagedName("port")
    ensures ManagedName("unix_socket_directories")
  {
  }

  lemma WalNames()
    ensures ManagedName("wal_level")
    ensures ManagedName("wal_log_hints")
    ensures ManagedName("max_wal_senders")
    ensures ManagedName("max_replication_slots")
  {
  }

  lemma ArchiveNames()
    ensures ManagedName("archive_mode")
    ensures ManagedName("archive_command")
    ensures ManagedName("archive_timeout")
  {
  }

  lemma SupervisionNames()
    ensures ManagedName("hot_standby")
    ensures ManagedName("hot_standby_feedback")
    ensures ManagedName("log_destination")
  {
  }

  lemma CrashNames()
    ensures ManagedName("restart_after_crash")
    ensures ManagedName("logging_collector")
    ensures ManagedName("shared_preload_libraries")
  {
  }

  lemma RecoveryNames()
    ensures ManagedName("restore_command")
    ensures ManagedName("recovery_target_time")
  {
  }

  lemma TargetNames()
    ensures ManagedName("recovery_target_action")
    ensures ManagedName("recovery_target_timeline")
  {
  }

  lemma StandbyNames()
    ensures ManagedName("primary_conninfo")
    ensures ManagedName("primary_slot_name")
    ensures ManagedName("restore_command")
  {
  }

  lemma WordsAreValid()
    ensures ValidValue(Bare("on")) && ValidValue(Bare("off")) && ValidValue(Bare("10"))
    ensures ValidValue(Quoted("*")) && ValidValue(Quoted("replica")) && ValidValue(Quoted("5min"))
    ensures ValidValue(Quoted("stderr")) && ValidValue(Quoted("promote")) && ValidValue(Quoted("current"))
    ensures ValidValue(Quoted("/pgdata/run"))
  {
  }

  lemma NumberIsValid(n: nat)
    ensures ValidValue(Bare(Digits(n)))
  {
  }

  lemma ConnectivityIsProper(m: Managed)
    ensures Proper(m.ConnectivityEntries(), true)
  {
    hide ManagedName, ValidValue, Digits;
    ConnectivityNames();
    WordsAreValid();
    NumberIsValid(m.port);
  }

  lemma WalIsProper(m: Managed)
    ensures Proper(m.WalEntries(), true)
  {
    hide ManagedName, ValidValue;
    WalNames();
    WordsAreValid();
  }

  lemma QuotedIsValid(text: string)
    ensures ValidValue(Quoted(text)) <==> Readable(text)
  {
  }

  lemma ArchiveIsProper(m: Managed)
    ensures Proper(m.ArchiveEntries(), m.archive.On? ==> Readable(m.archive.command))
  {
    hide ManagedName, ValidValue, Readable;
    ArchiveNames();
    WordsAreValid();
    if m.archive.On? {
      QuotedIsValid(m.archive.command);
      assert m.ArchiveEntries()[1].value == Quoted(m.archive.command);
    }
  }

  lemma SupervisionIsProper(m: Managed)
    ensures Proper(m.SupervisionEntries(), true)
  {
    hide ManagedName, ValidValue;
    SupervisionNames();
    CrashNames();
    WordsAreValid();
  }

  lemma PreloadIsProper(m: Managed)
    ensures Proper(m.PreloadEntries(), Readable(Joined(m.preload)))
  {
    hide ManagedName, ValidValue, Readable;
    CrashNames();
    QuotedIsValid(Joined(m.preload));
    if m.preload == [] {
      NothingIsReadable();
    } else {
      assert m.PreloadEntries()[2].value == Quoted(Joined(m.preload));
    }
  }

  lemma NothingIsReadable()
    ensures Readable("")
  {
  }

  lemma RecoveryIsProper(m: Managed)
    ensures Proper(m.RecoveryEntries(), m.RecoveryReadable())
  {
    hide ManagedName, ValidValue, Readable;
    RecoveryNames();
    TargetNames();
    WordsAreValid();
    if m.recovery.Some? {
      QuotedIsValid(m.recovery.value.restoreCommand);
      assert m.RecoveryEntries()[2].value == Quoted(m.recovery.value.restoreCommand);
      if m.recovery.value.targetTime.Some? {
        QuotedIsValid(m.recovery.value.targetTime.value);
        assert m.RecoveryEntries()[3].value == Quoted(m.recovery.value.targetTime.value);
      }
    }
  }

  lemma StandbyIsProper(m: Managed)
    ensures Proper(m.StandbyEntries(), m.StandbyReadable())
  {
    hide ManagedName, ValidValue, Readable;
    StandbyNames();
    if m.standby.Some? {
      var standby := m.standby.value;
      QuotedIsValid(standby.primaryConninfo);
      QuotedIsValid(standby.primarySlotName);
      assert m.StandbyEntries()[2].value == Quoted(standby.primaryConninfo);
      assert m.StandbyEntries()[3].value == Quoted(standby.primarySlotName);
      if standby.restoreCommand.Some? {
        QuotedIsValid(standby.restoreCommand.value);
        assert m.StandbyEntries()[4].value == Quoted(standby.restoreCommand.value);
      }
    }
  }

  /**
    The managed file has no directive, and is read as what it was meant to say in
    just those configurations whose values hold no newline and no backslash.
  */
  lemma ManagedIsRead(m: Managed)
    ensures ReadFile(m.Render()) == Some(Items(SettingsOf(m.Entries()))) <==> m.Valid()
    ensures AllNamed(m.Entries()) && OnlySettings(SettingsOf(m.Entries())) && (AllValid(m.Entries()) <==> m.Valid())
  {
    hide *;
    ManagedIsProper(m);
    RenderIsText(m);
    ProperIsValid(m.Entries(), m.Valid());
    FileIsRead(m.Entries());
  }

  lemma RenderIsText(m: Managed)
    ensures m.Render() == TextOf(m.Entries())
  {
  }

  lemma ManagedIsProper(m: Managed)
    ensures Proper(m.Entries(), m.Valid())
  {
    hide Managed.ConnectivityEntries, Managed.WalEntries, Managed.ArchiveEntries, Managed.SupervisionEntries;
    hide Managed.PreloadEntries, Managed.RecoveryEntries, Managed.StandbyEntries, Readable, Proper;
    ConnectivityIsProper(m);
    WalIsProper(m);
    ArchiveIsProper(m);
    SupervisionIsProper(m);
    PreloadIsProper(m);
    RecoveryIsProper(m);
    StandbyIsProper(m);
    var archive, preload := m.archive.On? ==> Readable(m.archive.command), Readable(Joined(m.preload));
    var a := m.ConnectivityEntries() + m.WalEntries();
    ProperBoth(m.ConnectivityEntries(), m.WalEntries(), true, true);
    ProperBoth(a, m.ArchiveEntries(), true, archive);
    ProperBoth(a + m.ArchiveEntries(), m.SupervisionEntries(), archive, true);
    var b := a + m.ArchiveEntries() + m.SupervisionEntries();
    ProperBoth(b, m.PreloadEntries(), archive, preload);
    ProperBoth(b + m.PreloadEntries(), m.RecoveryEntries(), archive && preload, m.RecoveryReadable());
    ProperBoth(b + m.PreloadEntries() + m.RecoveryEntries(), m.StandbyEntries(),
               archive && preload && m.RecoveryReadable(), m.StandbyReadable());
  }

  function BothFiles(m: Managed, params: seq<Setting>): string {
    m.Render() + TextOf(UserFile(params))
  }

  /** What the two files were meant to say. */
  function BothSettings(m: Managed, params: seq<Setting>): seq<Setting> {
    SettingsOf(m.Entries()) + Normalized(Sort(ByKey(), params))
  }

  /** The files are read as what they were meant to say exactly if no value, on either side, is lost. */
  lemma FilesAreRead(m: Managed, params: seq<Setting>)
    requires forall p :: p in params ==> Accepted(p)
    ensures ReadFile(BothFiles(m, params)) == Some(Items(BothSettings(m, params)))
       <==> m.Valid() && forall p :: p in params ==> Readable(p.1)
  {
    hide Managed.Entries, Managed.Valid, UserFile, TextOf, SettingsOf, ReadFile, Accepted, Readable, Items, AllNamed,
         AllValid, Sort;
    ManagedIsRead(m);
    UserFileIsValid(params);
    BothValid(m.Entries(), UserFile(params));
    TextOfBoth(m.Entries(), UserFile(params));
    FileIsRead(m.Entries() + UserFile(params));
  }

  /**
    Values of one line and without a backslash, and no directives: on any host the two
    files are well formed, reserved parameters are as the managed file has them, user
    parameters are as the user wrote them, and everything else is managed.
  */
  lemma FilesAsWritten(m: Managed, params: seq<Setting>, files: Files, name: string)
    requires m.Valid() && DistinctParameters(params) && NoDirectives(params)
    requires forall p :: p in params ==> Accepted(p) && Readable(p.1)
    ensures ReadFile(BothFiles(m, params)).Some? && ReadFile(m.Render()).Some?
    ensures InForce(ReadFile(BothFiles(m, params)).value, files).Some? && InForce(ReadFile(m.Render()).value, files).Some?
    ensures var managed, both := InForce(ReadFile(m.Render()).value, files).value,
                                 InForce(ReadFile(BothFiles(m, params)).value, files).value;
            && (Reserved(name) ==> Lookup(both, name) == Lookup(managed, name))
            && (forall p :: p in params ==> Lookup(both, Normal(p.0)) == Some(p.1))
            && ((forall p :: p in params ==> Normal(p.0) != name) ==> Lookup(both, name) == Lookup(managed, name))
  {
    hide Managed.Entries, Managed.Render, Managed.Valid, BothFiles, SettingsOf, ReadFile, InForce, Lookup, Reserved, Normal;
    hide Accepted, Readable, DistinctParameters, Sort, Items, AllNamed, AllValid, OnlySettings, NoDirectives;
    FilesAreRead(m, params);
    ManagedIsRead(m);
    var managed := SettingsOf(m.Entries());
    JustSettings(managed, files);
    UserSettingsOver(managed, params, files, name);
    forall p | p in params
      ensures Lookup(InForce(Items(BothSettings(m, params)), files).value, Normal(p.0)) == Some(p.1)
    {
      UserValueIsExact(managed, params, files, p);
    }
  }

  lemma ArchiveModeIsReserved()
    ensures Reserved("archive_mode")
  {
    assert RESERVED[1] == "archive_mode";
  }

  /** The input at which it fails: a file that exists, read in after the managed settings. */
  lemma AnIncludeIsAccepted(m: Managed, path: string, name: string, value: string)
    requires m.Valid() && Readable(path) && Reserved(name)
    ensures var params := [("include_if_exists", path)];
            && Accepted(params[0])
            && ReadFile(BothFiles(m, params)).Some?
            && var now := InForce(ReadFile(BothFiles(m, params)).value, Everywhere((name, value)));
               now.Some? && Lookup(now.value, name) == Some(value)
  {
    hide Managed.Entries, Managed.Render, Managed.Valid, BothFiles, SettingsOf, ReadFile, InForce, Lookup, Reserved, Normal;
    hide Readable, Sort, Items, AllNamed, AllValid, OnlySettings, Everywhere, ValidName;
    var params := [("include_if_exists", path)];
    IncludeIsAName();
    assert params[0] in params;
    FilesAreRead(m, params);
    ManagedIsRead(m);
    IncludeOverrides(SettingsOf(m.Entries()), params, name, value);
  }

  lemma IncludeIsAName()
    ensures Normal("include_if_exists") == "include_if_exists"
    ensures ValidName("include_if_exists") && IsDirective("include_if_exists") && !Reserved("include_if_exists")
  {
    var s := "include_if_exists";
    assert ValidName(s) && Trim(s) == s by {
      assert forall i :: 0 <= i < |s| ==> IsLower(s[i]) || s[i] == '_';
    }
    assert ToAsciiLowercase(s) == s by {
      assert forall i :: 0 <= i < |s| ==> ToLower(s[i]) == s[i];
    }
    ReservedStartOtherwise();
  }

  lemma ReservedStartOtherwise()
    ensures forall i :: 0 <= i < |RESERVED| ==> RESERVED[i][0] != 'i'
  {
  }

  // ---- the settings that keep a cluster recoverable ----------------

  lemma Lacks(s: seq<Setting>, name: string)
    requires forall i :: 0 <= i < |s| ==> |s[i].0| != |name|
    ensures Lookup(s, name).None?
  {
    LookupNeedsName(s, name);
  }

  predicate NoneOfLength(entries: seq<Entry>, n: nat) {
    forall i :: 0 <= i < |entries| && entries[i].Assign? ==> |entries[i].key| != n
  }

  lemma {:induction false} LacksLength(entries: seq<Entry>, name: string)
    requires NoneOfLength(entries, |name|)
    ensures Lookup(SettingsOf(entries), name).None?
  {
    if entries != [] {
      LacksLength(entries[1..], name);
      LookupBoth(SettingOf(entries[0]), SettingsOf(entries[1..]), name);
      Lacks(SettingOf(entries[0]), name);
    }
  }

  /** A name that no other entry can have: it is set once, to this. */
  lemma SetOnce(front: seq<Entry>, e: Entry, back: seq<Entry>)
    requires e.Assign? && NoneOfLength(back, |e.key|)
    ensures Lookup(SettingsOf(front + [e] + back), e.key) == Some(Plain(e.value))
  {
    hide SettingsOf, NoneOfLength, Lookup;
    TextOfBoth(front + [e], back);
    TextOfBoth(front, [e]);
    LookupBoth(SettingsOf(front + [e]), SettingsOf(back), e.key);
    LookupBoth(SettingsOf(front), SettingsOf([e]), e.key);
    LacksLength(back, e.key);
    JustOne(e);
  }

  lemma JustOne(e: Entry)
    requires e.Assign?
    ensures Lookup(SettingsOf([e]), e.key) == Some(Plain(e.value))
  {
    assert SettingsOf([e]) == [(e.key, Plain(e.value))] + SettingsOf([]);
  }

  /** Everything behind the write-ahead log settings. */
  function Later(m: Managed): seq<Entry> {
    m.SupervisionEntries() + m.PreloadEntries() + m.RecoveryEntries() + m.StandbyEntries()
  }

  predicate OtherLengths(entries: seq<Entry>) {
    NoneOfLength(entries, 12) && NoneOfLength(entries, 9) && NoneOfLength(entries, 13)
  }

  lemma LaterLengths(m: Managed)
    ensures OtherLengths(Later(m))
  {
    hide Managed.SupervisionEntries, Managed.PreloadEntries, Managed.RecoveryEntries, Managed.StandbyEntries, OtherLengths;
    SupervisionLengths(m);
    PreloadLengths(m);
    RecoveryLengths(m);
    StandbyLengths(m);
    OtherLengthsOfBoth(m.SupervisionEntries(), m.PreloadEntries());
    OtherLengthsOfBoth(m.SupervisionEntries() + m.PreloadEntries(), m.RecoveryEntries());
    OtherLengthsOfBoth(m.SupervisionEntries() + m.PreloadEntries() + m.RecoveryEntries(), m.StandbyEntries());
  }

  lemma OtherLengthsOfBoth(a: seq<Entry>, b: seq<Entry>)
    requires OtherLengths(a) && OtherLengths(b)
    ensures OtherLengths(a + b)
  {
  }

  lemma SupervisionLengths(m: Managed)
    ensures OtherLengths(m.SupervisionEntries())
  {
  }

  lemma PreloadLengths(m: Managed)
    ensures OtherLengths(m.PreloadEntries())
  {
  }

  lemma StandbyLengths(m: Managed)
    ensures OtherLengths(m.StandbyEntries())
  {
  }

  lemma RecoveryLengths(m: Managed)
    ensures OtherLengths(m.RecoveryEntries())
  {
  }

  lemma BehindWalLevel(m: Managed)
    ensures NoneOfLength(m.WalEntries()[3..] + m.ArchiveEntries() + Later(m), 9)
    ensures NoneOfLength(m.WalEntries()[4..] + m.ArchiveEntries() + Later(m), 13)
  {
    hide Later;
    LaterLengths(m);
  }

  lemma BehindArchiveMode(m: Managed)
    ensures NoneOfLength(m.ArchiveEntries()[if m.archive.On? then 1 else 3..] + Later(m), 12)
  {
    hide Later;
    LaterLengths(m);
  }

  /** Whatever the configuration, what pg_rewind needs is on, and archiving is on just when there is somewhere to archive to. */
  lemma RecoverabilityIsManaged(m: Managed)
    ensures var s := SettingsOf(m.Entries());
            && Lookup(s, "wal_level") == Some("replica")
            && Lookup(s, "wal_log_hints") == Some("on")
            && Lookup(s, "archive_mode") == Some(if m.archive.On? then "on" else "off")
  {
    WalIsManaged(m);
    ArchivingIsManaged(m);
  }

  lemma WalIsManaged(m: Managed)
    ensures Lookup(SettingsOf(m.Entries()), "wal_level") == Some("replica")
    ensures Lookup(SettingsOf(m.Entries()), "wal_log_hints") == Some("on")
  {
    hide SettingsOf, Lookup, Later, NoneOfLength, Managed.ConnectivityEntries, Managed.ArchiveEntries;
    BehindWalLevel(m);
    LaterIs(m);
    var front, wal, archive, later := m.ConnectivityEntries(), m.WalEntries(), m.ArchiveEntries(), Later(m);
    SplitInside(front, wal, archive, later, 2);
    SetOnce(front + wal[..2], wal[2], wal[3..] + archive + later);
    SplitInside(front, wal, archive, later, 3);
    SetOnce(front + wal[..3], wal[3], wal[4..] + archive + later);
  }

  lemma SplitInside(a: seq<Entry>, b: seq<Entry>, c: seq<Entry>, d: seq<Entry>, k: nat)
    requires k < |b|
    ensures a + b + c + d == (a + b[..k]) + [b[k]] + (b[k + 1..] + c + d)
  {
  }

  lemma ArchivingIsManaged(m: Managed)
    ensures Lookup(SettingsOf(m.Entries()), "archive_mode") == Some(if m.archive.On? then "on" else "off")
  {
    hide SettingsOf, Lookup, Later, NoneOfLength, Managed.ConnectivityEntries, Managed.WalEntries;
    BehindArchiveMode(m);
    LaterIs(m);
    var archive, k := m.ArchiveEntries(), if m.archive.On? then 0 else 2;
    var front := m.ConnectivityEntries() + m.WalEntries();
    assert m.Entries() == (front + archive[..k]) + [archive[k]] + (archive[k + 1..] + Later(m));
    SetOnce(front + archive[..k], archive[k], archive[k + 1..] + Later(m));
  }

  lemma LaterIs(m: Managed)
    ensures m.Entries() == m.ConnectivityEntries() + m.WalEntries() + m.ArchiveEntries() + Later(m)
  {
  }
}
