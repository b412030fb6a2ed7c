/**
  Configuration values of more than one line. A quoted string ends on its line, so to
  the reader everything behind a newline in a value is lines of their own. This module
  has what both files say for every value that is accepted, as long as they can be
  read at all.
*/
module ConfLines {
  import opened Wrappers
  import opened Text
  import opened Sorting
  import opened Conf

  // ---- a value, line by line ---------------------------------------

  function Written(v: Value): string {
    ValueText(v) + "\n"
  }

  /** The part of a value on the line of its name. */
  function OnItsLine(v: Value): string {
    Written(v)[..LineEnd(Written(v))]
  }

  /** The part behind its first newline; nothing, if it has none. */
  function Behind(v: Value): string {
    var n := LineEnd(Written(v));
    if n == |Written(v)| then "" else Written(v)[n + 1..]
  }

  function Both(a: Option<seq<Item>>, b: Option<seq<Item>>): Option<seq<Item>> {
    if a.Some? && b.Some? then Some(a.value + b.value) else None
  }

  /** What the lines behind a value say. */
  function Spill(v: Value): seq<Item> {
    ReadFile(Behind(v)).GetOr([])
  }

  /** How one entry is read: its own line, and the lines its value has behind. */
  function ReadEntry(e: Entry): Option<seq<Item>> {
    if !e.Assign? then Some([])
    else match ReadValue(OnItsLine(e.value))
      case None => None
      case Some(value) => Both(Some([ItemFor((e.key, value))]), ReadFile(Behind(e.value)))
  }

  function ReadEntries(entries: seq<Entry>): Option<seq<Item>> {
    if entries == [] then Some([]) else Both(ReadEntry(entries[0]), ReadEntries(entries[1..]))
  }

  /** Everything that was not meant to be said. */
  function Spilled(entries: seq<Entry>): seq<Item> {
    if entries == [] then []
    else (if entries[0].Assign? then Spill(entries[0].value) else []) + Spilled(entries[1..])
  }

  lemma {:induction false} LineEndStops(a: string, b: string)
    requires '\n' in a
    ensures LineEnd(a + b) == LineEnd(a) < |a| && a[LineEnd(a)] == '\n'
  {
    assert (a + b)[0] == a[0];
    if a[0] != '\n' {
      assert (a + b)[1..] == a[1..] + b;
      LineEndStops(a[1..], b);
    }
  }

  lemma BothIsAssociative(a: Option<seq<Item>>, b: Option<seq<Item>>, c: Option<seq<Item>>)
    ensures Both(Both(a, b), c) == Both(a, Both(b, c))
    ensures Both(Some([]), a) == a && Both(a, Some([])) == a
  {
    if a.Some? && b.Some? && c.Some? {
      assert (a.value + b.value) + c.value == a.value + (b.value + c.value);
    }
    assert a.Some? ==> [] + a.value == a.value && a.value + [] == a.value;
  }

  lemma ReadsFirstLine(s: string)
    requires s != ""
    ensures var n := LineEnd(s);
            ReadFile(s) == Both(ReadLine(s[..n]), if n == |s| then Some([]) else ReadFile(s[n + 1..]))
  {
  }

  /** Whole lines are read one part after the other. */
  lemma {:induction false} ReadsInParts(a: string, b: string)
    requires a == "" || a[|a| - 1] == '\n'
    ensures ReadFile(a + b) == Both(ReadFile(a), ReadFile(b))
    decreases |a|
  {
    hide ReadFile, ReadLine, Both, LineEnd;
    if a == "" {
      assert a + b == b;
      NothingIsRead();
      BothIsAssociative(ReadFile(b), Some([]), Some([]));
    } else {
      LineEndStops(a, b);
      var n := LineEnd(a);
      assert (a + b)[..n] == a[..n] && (a + b)[n + 1..] == a[n + 1..] + b;
      ReadsInParts(a[n + 1..], b);
      ReadsFirstLine(a);
      ReadsFirstLine(a + b);
      BothIsAssociative(ReadLine(a[..n]), ReadFile(a[n + 1..]), ReadFile(b));
    }
  }

  lemma NothingIsRead()
    ensures ReadFile("") == Some([])
  {
  }

  lemma EntryReads(e: Entry)
    requires WellNamed(e)
    ensures ReadFile(LineOf(e) + "\n") == ReadEntry(e)
  {
    if e.Assign? {
      AssignmentReads(e.key, e.value);
    } else {
      var line := LineOf(e);
      assert (line + "\n")[..|line|] == line && (line + "\n")[|line| + 1..] == "";
      LineIsWhole(line, "");
      assert line + "\n" + "" == line + "\n";
      ReadsFirstLine(line + "\n");
      assert ReadLine(line) == Some([]);
      NothingIsRead();
      BothIsAssociative(Some([]), None, None);
    }
  }

  lemma AssignmentReads(key: string, v: Value)
    requires WellNamed(Assign(key, v))
    ensures ReadFile(LineOf(Assign(key, v)) + "\n") == ReadEntry(Assign(key, v))
  {
    hide ReadFile, ReadLine, ReadValue, ItemFor, ToAsciiLowercase, LineEnd, ValueText;
    var name, w := key + " = ", Written(v);
    var s := name + w;
    assert LineOf(Assign(key, v)) + "\n" == s;
    StartsOnItsLine(key, v);
    NoNewlineInName(key);
    LineEndStops(w, "");
    assert w + "" == w;
    LineEndSkips(name, w);
    assert s[..LineEnd(s)] == name + OnItsLine(v) && s[LineEnd(s) + 1..] == Behind(v);
    AssignmentIsRead(key, OnItsLine(v));
    ReadsFirstLine(s);
    BothIsAssociative(ReadFile(Behind(v)), None, None);
  }

  /** The line of a name has the beginning of its value. */
  lemma StartsOnItsLine(key: string, v: Value)
    requires WellNamed(Assign(key, v))
    ensures '\n' in Written(v) && OnItsLine(v) != "" && !IsBlank(OnItsLine(v)[0])
  {
    var w := Written(v);
    assert w[|w| - 1] == '\n';
    match v
    case Quoted(text) => assert w[0] == '\'';
    case Bare(word) => assert w[0] == word[0] && IsWordChar(word[0]);
  }

  /** A file is read entry by entry, whatever its values hold. */
  lemma {:induction false} FileReads(entries: seq<Entry>)
    requires AllNamed(entries)
    ensures ReadFile(TextOf(entries)) == ReadEntries(entries)
  {
    hide ReadFile, ReadEntry, LineOf, WellNamed;
    if entries == [] {
      NothingIsRead();
    } else {
      var line := LineOf(entries[0]) + "\n";
      assert forall i :: 0 <= i < |entries[1..]| ==> entries[1..][i] == entries[i + 1];
      FileReads(entries[1..]);
      EntryReads(entries[0]);
      ReadsInParts(line, TextOf(entries[1..]));
    }
  }

  lemma {:induction false} EntriesInParts(a: seq<Entry>, b: seq<Entry>)
    ensures ReadEntries(a + b) == Both(ReadEntries(a), ReadEntries(b))
    ensures Spilled(a + b) == Spilled(a) + Spilled(b)
  {
    hide ReadEntry, Spill, Both;
    if a == [] {
      assert a + b == b;
      BothIsAssociative(ReadEntries(b), None, None);
      assert [] + Spilled(b) == Spilled(b);
    } else {
      assert (a + b)[0] == a[0] && (a + b)[1..] == a[1..] + b;
      EntriesInParts(a[1..], b);
      BothIsAssociative(ReadEntry(a[0]), ReadEntries(a[1..]), ReadEntries(b));
      var first := if a[0].Assign? then Spill(a[0].value) else [];
      assert first + (Spilled(a[1..]) + Spilled(b)) == (first + Spilled(a[1..])) + Spilled(b);
    }
  }

  /** A value is read as it was written exactly if it is readable, whatever lines it has behind. */
  lemma ValueOnItsLine(s: string)
    ensures ReadValue(OnItsLine(Quoted(s))) == Some(s) <==> Readable(s)
    ensures '\n' !in s ==> Spill(Quoted(s)) == [] && Behind(Quoted(s)) == ""
  {
    hide ReadValue, Quote;
    assert Written(Quoted(s)) == Quote(s) + "\n" + "";
    if !Readable(s) {
      CutValueIsLost(s, "");
    }
    if '\n' !in s {
      NoNewlineInQuoted(s);
      LineIsWhole(Quote(s), "");
      assert (Quote(s) + "\n" + "")[..|Quote(s)|] == Quote(s);
      QuotingSurvivesExactlyWhenReadable(s);
      NothingIsRead();
    }
  }

  lemma NoNewlineInQuoted(s: string)
    requires '\n' !in s
    ensures '\n' !in Quote(s)
  {
    DoubledStaysOnItsLine(s);
  }

  lemma WordsHaveNothingBehind(word: string)
    requires ValidValue(Bare(word))
    ensures Spill(Bare(word)) == [] && ReadValue(OnItsLine(Bare(word))) == Some(word)
  {
    hide ReadValue;
    assert '\n' !in word;
    assert Written(Bare(word)) == word + "\n" + "";
    LineIsWhole(word, "");
    assert (word + "\n" + "")[..|word|] == word;
    ValueIsRead(Bare(word));
    NothingIsRead();
  }

  // ---- what items say ----------------------------------------------

  predicate NoIncludes(items: seq<Item>) {
    forall item :: item in items ==> item.Set?
  }

  function Sets(items: seq<Item>): seq<Setting> {
    if items == [] then []
    else (if items[0].Set? then [(items[0].name, items[0].value)] else []) + Sets(items[1..])
  }

  lemma {:induction false} SetsOfBoth(a: seq<Item>, b: seq<Item>)
    ensures Sets(a + b) == Sets(a) + Sets(b)
  {
    if a == [] {
      assert a + b == b;
    } else {
      assert (a + b)[0] == a[0] && (a + b)[1..] == a[1..] + b;
      SetsOfBoth(a[1..], b);
    }
  }

  function Nowhere(): Files {
    (directive, path) => None
  }

  /** Without directives the host does not matter; with one, it can make the file fail. */
  lemma {:induction false} WithoutIncludes(items: seq<Item>, files: Files)
    ensures NoIncludes(items) ==> InForce(items, files) == Some(Sets(items))
    ensures !NoIncludes(items) ==> InForce(items, Nowhere()).None?
  {
    if items != [] {
      WithoutIncludes(items[1..], files);
      assert forall item :: item in items <==> item == items[0] || item in items[1..];
    }
  }

  lemma {:induction false} SetsOnlyThose(items: seq<Item>, s: Setting)
    ensures s in Sets(items) <==> Set(s.0, s.1) in items
  {
    if items != [] {
      SetsOnlyThose(items[1..], s);
      assert forall item :: item in items <==> item == items[0] || item in items[1..];
    }
  }

  predicate Harmless(item: Item) {
    item.Set? && !Reserved(item.name)
  }

  predicate AllHarmless(items: seq<Item>) {
    forall item :: item in items ==> Harmless(item)
  }

  /** Over any file, and on any host where both are in force, reserved names are as that file has them. */
  ghost predicate LeavesReserved(items: seq<Item>) {
    forall managed: seq<Item>, files: Files, name: string ::
      Reserved(name) && InForce(managed, files).Some? && InForce(managed + items, files).Some? ==>
        Lookup(InForce(managed + items, files).value, name) == Lookup(InForce(managed, files).value, name)
  }

  lemma HarmlessLeavesReserved(items: seq<Item>, managed: seq<Item>, files: Files, name: string)
    requires AllHarmless(items) && Reserved(name) && InForce(managed, files).Some?
    ensures InForce(managed + items, files).Some?
    ensures Lookup(InForce(managed + items, files).value, name) == Lookup(InForce(managed, files).value, name)
  {
    hide Reserved;
    InForceBoth(managed, items, files);
    WithoutIncludes(items, files);
    LookupBoth(InForce(managed, files).value, Sets(items), name);
    LookupNeedsName(Sets(items), name);
    if Lookup(Sets(items), name).Some? {
      SetsOnlyThose(items, (name, Lookup(Sets(items), name).value));
    }
  }

  /** One item that sets a reserved name, or reads another file, is enough to set one on some host. */
  lemma {:induction false} HarmComesThrough(items: seq<Item>, i: nat, s: Setting)
    requires i < |items| && (items[i].Include? || items[i].name == s.0)
    ensures var now := InForce(items, Everywhere(s));
            now.Some? && Lookup(now.value, s.0).Some?
  {
    var first := ComesTo(items[0], Everywhere(s)).value;
    assert items == [items[0]] + items[1..];
    AllInForce(items[1..], s);
    LookupBoth(first, InForce(items[1..], Everywhere(s)).value, s.0);
    if i == 0 {
      assert first[0].0 == s.0;
      LookupNeedsName(first, s.0);
    } else {
      HarmComesThrough(items[1..], i - 1, s);
    }
  }

  lemma {:induction false} AllInForce(items: seq<Item>, s: Setting)
    ensures InForce(items, Everywhere(s)).Some?
  {
    if items != [] {
      AllInForce(items[1..], s);
    }
  }

  lemma LeavesReservedExactly(items: seq<Item>)
    ensures LeavesReserved(items) <==> AllHarmless(items)
  {
    hide Reserved;
    if AllHarmless(items) {
      forall managed: seq<Item>, files: Files, name: string
        | Reserved(name) && InForce(managed, files).Some? && InForce(managed + items, files).Some?
        ensures Lookup(InForce(managed + items, files).value, name) == Lookup(InForce(managed, files).value, name)
      {
        HarmlessLeavesReserved(items, managed, files, name);
      }
    } else {
      ArchiveModeIsReserved();
      var i :| 0 <= i < |items| && !Harmless(items[i]);
      var name := if items[i].Set? then items[i].name else "archive_mode";
      HarmComesThrough(items, i, (name, ""));
      assert [] + items == items;
      assert InForce([], Everywhere((name, ""))) == Some([]);
      assert Lookup([], name).None?;
    }
  }

  // ---- the user's file ---------------------------------------------

  /** Whether the lines behind a value leave reserved names and other files alone: nothing, for a value of one line. */
  predicate SpillsNoHarm(value: string) {
    AllHarmless(Spill(Quoted(value)))
  }

  predicate EntryHarmless(e: Entry) {
    e.Assign? ==> !IsDirective(e.key) && !Reserved(e.key) && AllHarmless(Spill(e.value))
  }

  /** An entry's items are harmless just if its name and the lines behind its value are. */
  lemma {:induction false} HarmlessEntryByEntry(entries: seq<Entry>)
    requires ReadEntries(entries).Some?
    ensures AllHarmless(ReadEntries(entries).value) <==> forall i :: 0 <= i < |entries| ==> EntryHarmless(entries[i])
  {
    hide Reserved, IsDirective, ReadValue, OnItsLine, Behind, ReadFile;
    if entries != [] {
      HarmlessEntryByEntry(entries[1..]);
      var e := entries[0];
      var first, rest := ReadEntry(e).value, ReadEntries(entries[1..]).value;
      assert AllHarmless(first + rest) <==> AllHarmless(first) && AllHarmless(rest) by {
        AllOfBoth(first, rest);
      }
      assert AllHarmless(first) <==> EntryHarmless(e) by {
        if e.Assign? {
          var own := [ItemFor((e.key, ReadValue(OnItsLine(e.value)).value))];
          AllOfBoth(own, Spill(e.value));
          assert own[0] in own;
          assert first == own + Spill(e.value);
        }
      }
      assert forall i :: 0 < i < |entries| ==> entries[i] == entries[1..][i - 1];
      assert forall i :: 0 <= i < |entries[1..]| ==> entries[1..][i] == entries[i + 1];
    }
  }

  lemma AllOfBoth(a: seq<Item>, b: seq<Item>)
    ensures AllHarmless(a + b) <==> AllHarmless(a) && AllHarmless(b)
    ensures NoIncludes(a + b) <==> NoIncludes(a) && NoIncludes(b)
  {
    hide Harmless;
    assert forall item :: item in a + b <==> item in a || item in b;
  }

  lemma {:induction false} UserEntryAt(sorted: seq<Setting>, i: nat)
    requires i < |sorted|
    ensures |UserEntries(sorted)| == |sorted|
    ensures UserEntries(sorted)[i] == Assign(Normal(sorted[i].0), Quoted(sorted[i].1))
    decreases |sorted|
  {
    hide Normal;
    var n := |sorted| - 1;
    if n > 0 {
      UserEntryAt(sorted[..n], if i < n then i else 0);
    } else {
      assert UserEntries(sorted[..n]) == [];
    }
  }

  /**
    For accepted parameters whose file can be read: over any managed file and on any
    host, the reserved parameters are left as they were, exactly if no parameter is
    named like a directive and no line that a value has behind a newline is a
    directive or sets a reserved name.
  */
  lemma ReservedHoldExactly(params: seq<Setting>)
    requires forall p :: p in params ==> Accepted(p)
    requires ReadFile(TextOf(UserFile(params))).Some?
    ensures LeavesReserved(ReadFile(TextOf(UserFile(params))).value)
       <==> NoDirectives(params) && forall p :: p in params ==> SpillsNoHarm(p.1)
  {
    hide *;
    UserReads(params);
    LeavesReservedExactly(ReadFile(TextOf(UserFile(params))).value);
    UserHarmless(params);
  }

  /** The user's file is read parameter by parameter. */
  lemma UserReads(params: seq<Setting>)
    requires forall p :: p in params ==> Accepted(p)
    ensures ReadFile(TextOf(UserFile(params))) == ReadEntries(UserFile(params)) == ReadEntries(UserEntries(Sort(ByKey(), params)))
    ensures Spilled(UserFile(params)) == Spilled(UserEntries(Sort(ByKey(), params)))
  {
    hide ReadFile, Accepted, UserEntries, AllNamed, Sort, ReadEntry, Normal;
    UserFileIsValid(params);
    FileReads(UserFile(params));
    EntriesInParts(Header(), UserEntries(Sort(ByKey(), params)));
    HeaderSaysNothing();
    BothIsAssociative(ReadEntries(UserEntries(Sort(ByKey(), params))), None, None);
  }

  lemma HeaderSaysNothing()
    ensures ReadEntries(Header()) == Some([]) && Spilled(Header()) == []
  {
    var h := Header();
    assert h[1..] == [Comment, Blank] && h[1..][1..] == [Blank] && [Blank][1..] == [];
    NothingSaid();
    BothIsAssociative(Some([]), None, None);
    assert ReadEntries([Blank]) == Both(Some([]), ReadEntries([]));
    assert ReadEntries(h[1..]) == Both(Some([]), ReadEntries([Blank]));
    assert ReadEntries(h) == Both(Some([]), ReadEntries(h[1..]));
    assert Spilled([Blank]) == [] + Spilled([]) && Spilled(h[1..]) == [] + Spilled([Blank]);
  }

  lemma NothingSaid()
    ensures ReadEntries([]) == Some([]) && Spilled([]) == []
  {
  }

  lemma UserHarmless(params: seq<Setting>)
    requires forall p :: p in params ==> Accepted(p)
    requires ReadEntries(UserEntries(Sort(ByKey(), params))).Some?
    ensures AllHarmless(ReadEntries(UserEntries(Sort(ByKey(), params))).value)
       <==> NoDirectives(params) && forall p :: p in params ==> SpillsNoHarm(p.1)
  {
    hide Reserved, IsDirective, Normal, ValidName, AllHarmless, Spill, Sort, ReadEntries, UserEntries;
    var sorted := Sort(ByKey(), params);
    var entries := UserEntries(sorted);
    SortKeepsMembers(params);
    HarmlessEntryByEntry(entries);
    if sorted == [] {
      NoUserEntries();
    } else {
      UserEntryAt(sorted, 0);
    }
    assert |entries| == |sorted|;
    forall i | 0 <= i < |sorted|
      ensures sorted[i] in params
      ensures EntryHarmless(entries[i]) <==> !IsDirective(Normal(sorted[i].0)) && SpillsNoHarm(sorted[i].1)
    {
      UserEntryAt(sorted, i);
    }
    if forall i :: 0 <= i < |entries| ==> EntryHarmless(entries[i]) {
      forall p | p in params ensures !IsDirective(Normal(p.0)) && SpillsNoHarm(p.1) {
        var i :| 0 <= i < |sorted| && sorted[i] == p;
        assert EntryHarmless(entries[i]);
      }
    }
  }

  lemma NoUserEntries()
    ensures UserEntries([]) == []
  {
  }

  // ---- over a managed file -----------------------------------------

  /** On any host, reserved names have their managed values. */
  ghost predicate KeepsReserved(items: seq<Item>, managed: seq<Setting>) {
    forall files: Files, name: string :: Reserved(name) ==>
      InForce(items, files).Some? && Lookup(InForce(items, files).value, name) == Lookup(managed, name)
  }

  /** For each name that no entry has, only the lines behind the values matter. */
  lemma {:induction false} OwnNamesAside(entries: seq<Entry>, name: string)
    requires ReadEntries(entries).Some?
    requires forall i :: 0 <= i < |entries| && entries[i].Assign? ==> entries[i].key != name
    ensures Lookup(Sets(ReadEntries(entries).value), name) == Lookup(Sets(Spilled(entries)), name)
  {
    hide ReadValue, OnItsLine, Behind, ReadFile, IsDirective, Lookup;
    if entries != [] {
      var e := entries[0];
      var first, rest := ReadEntry(e).value, ReadEntries(entries[1..]).value;
      var spill := if e.Assign? then Spill(e.value) else [];
      OwnNamesAside(entries[1..], name);
      SetsOfBoth(first, rest);
      SetsOfBoth(spill, Spilled(entries[1..]));
      LookupBoth(Sets(first), Sets(rest), name);
      LookupBoth(Sets(spill), Sets(Spilled(entries[1..])), name);
      if e.Assign? {
        OwnSetting(e.key, ReadValue(OnItsLine(e.value)).value, spill, name);
      }
    }
  }

  lemma OwnSetting(key: string, value: string, spill: seq<Item>, name: string)
    ensures key != name ==> Lookup(Sets([ItemFor((key, value))] + spill), name) == Lookup(Sets(spill), name)
    ensures key == name && !IsDirective(key) ==>
              Lookup(Sets([ItemFor((key, value))] + spill), name)
              == if Lookup(Sets(spill), name).Some? then Lookup(Sets(spill), name) else Some(value)
  {
    hide IsDirective;
    var own := [ItemFor((key, value))];
    assert own[1..] == [];
    SetsOfBoth(own, spill);
    LookupBoth(Sets(own), Sets(spill), name);
    LookupNeedsName(Sets(own), name);
    if !IsDirective(key) {
      assert Sets(own) == [(key, value)];
      assert [(key, value)][..0] == [];
    }
  }

  predicate NoDirectiveKeys(entries: seq<Entry>) {
    forall i :: 0 <= i < |entries| && entries[i].Assign? ==> !IsDirective(entries[i].key)
  }

  lemma {:induction false} IncludesEntryByEntry(entries: seq<Entry>)
    requires ReadEntries(entries).Some?
    ensures NoIncludes(ReadEntries(entries).value) <==> NoDirectiveKeys(entries) && NoIncludes(Spilled(entries))
  {
    hide ReadValue, OnItsLine, Behind, ReadFile, IsDirective, NoIncludes;
    if entries == [] {
    } else {
      var e := entries[0];
      var first, rest := ReadEntry(e).value, ReadEntries(entries[1..]).value;
      var spill := if e.Assign? then Spill(e.value) else [];
      IncludesEntryByEntry(entries[1..]);
      AllOfBoth(first, rest);
      AllOfBoth(spill, Spilled(entries[1..]));
      assert forall i :: 0 < i < |entries| ==> entries[i] == entries[1..][i - 1];
      assert forall i :: 0 <= i < |entries[1..]| ==> entries[1..][i] == entries[i + 1];
      if e.Assign? {
        var own := [ItemFor((e.key, ReadValue(OnItsLine(e.value)).value))];
        AllOfBoth(own, spill);
        OneSet(own[0]);
      }
    }
  }

  lemma OneSet(item: Item)
    ensures NoIncludes([item]) <==> item.Set?
  {
    assert item in [item];
  }

  /** Names that no user entry has: the reserved ones. */
  lemma UserNames(params: seq<Setting>, name: string)
    requires forall p :: p in params ==> Accepted(p) && Normal(p.0) != name
    ensures var entries := UserEntries(Sort(ByKey(), params));
            forall i :: 0 <= i < |entries| && entries[i].Assign? ==> entries[i].key != name
  {
    hide Normal, Accepted, UserEntries, Sort;
    var sorted := Sort(ByKey(), params);
    SortKeepsMembers(params);
    var entries := UserEntries(sorted);
    if sorted == [] {
      NoUserEntries();
    } else {
      UserEntryAt(sorted, 0);
    }
    forall i | 0 <= i < |sorted| ensures entries[i] == Assign(Normal(sorted[i].0), Quoted(sorted[i].1)) && sorted[i] in params {
      UserEntryAt(sorted, i);
    }
  }

  lemma BothFilesRead(m: Managed, params: seq<Setting>)
    requires forall p :: p in params ==> Accepted(p)
    ensures ReadFile(BothFiles(m, params)) == Both(ReadFile(m.Render()), ReadFile(TextOf(UserFile(params))))
    ensures ReadFile(m.Render()) == ReadEntries(m.Entries())
  {
    hide ReadFile, Managed.Entries, UserFile, ReadEntries, TextOf, AllNamed, AllValid;
    ManagedIsRead(m);
    FileReads(m.Entries());
    TextEndsItsLine(m.Entries());
    ReadsInParts(m.Render(), TextOf(UserFile(params)));
  }

  lemma {:induction false} TextEndsItsLine(entries: seq<Entry>)
    ensures TextOf(entries) == "" || TextOf(entries)[|TextOf(entries)| - 1] == '\n'
  {
    hide LineOf;
    if entries != [] {
      TextEndsItsLine(entries[1..]);
    }
  }

  lemma UserDirectives(params: seq<Setting>)
    ensures NoDirectiveKeys(UserEntries(Sort(ByKey(), params))) <==> NoDirectives(params)
  {
    hide Normal, UserEntries, Sort, IsDirective;
    var sorted := Sort(ByKey(), params);
    SortKeepsMembers(params);
    var entries := UserEntries(sorted);
    if sorted == [] {
      NoUserEntries();
    } else {
      UserEntryAt(sorted, 0);
    }
    forall i | 0 <= i < |sorted| ensures entries[i] == Assign(Normal(sorted[i].0), Quoted(sorted[i].1)) && sorted[i] in params {
      UserEntryAt(sorted, i);
    }
    if NoDirectiveKeys(entries) {
      forall p | p in params ensures !IsDirective(Normal(p.0)) {
        var i :| 0 <= i < |sorted| && sorted[i] == p;
        assert entries[i].Assign?;
      }
    }
  }

  /** Of the names that have a value behind a newline, the reserved ones have the value they had. */
  ghost predicate NoOtherValue(spilled: seq<Item>, managed: seq<Setting>) {
    forall name: string :: Reserved(name) && Lookup(Sets(spilled), name).Some? ==>
      Lookup(Sets(spilled), name) == Lookup(managed, name)
  }

  /**
    Over one managed file, with no directive of its own: reserved parameters keep their
    very values on every host exactly if no parameter is named like a directive, no line
    behind a value is one, and for each reserved name that such lines set, the last sets
    the value it has anyway.
  */
  lemma ReservedKeepTheirValues(m: Managed, params: seq<Setting>)
    requires forall p :: p in params ==> Accepted(p)
    requires ReadFile(m.Render()).Some? && NoIncludes(ReadFile(m.Render()).value)
    requires ReadFile(TextOf(UserFile(params))).Some?
    ensures ReadFile(BothFiles(m, params)).Some?
    ensures var managed, spilled := Sets(ReadFile(m.Render()).value), Spilled(UserFile(params));
            KeepsReserved(ReadFile(BothFiles(m, params)).value, managed)
            <==> NoDirectives(params) && NoIncludes(spilled) && NoOtherValue(spilled, managed)
  {
    hide *;
    BothFilesRead(m, params);
    UserReads(params);
    BothKnown(ReadFile(m.Render()), ReadFile(TextOf(UserFile(params))));
    var entries := UserEntries(Sort(ByKey(), params));
    IncludesEntryByEntry(entries);
    UserDirectives(params);
    forall name: string | Reserved(name)
      ensures Lookup(Sets(ReadEntries(entries).value), name) == Lookup(Sets(Spilled(entries)), name)
    {
      ReservedIsNoUserName(params, name);
      OwnNamesAside(entries, name);
    }
    KeepsExactly(ReadFile(m.Render()).value, ReadEntries(entries).value, Spilled(entries));
  }

  lemma BothKnown(a: Option<seq<Item>>, b: Option<seq<Item>>)
    requires a.Some? && b.Some?
    ensures Both(a, b) == Some(a.value + b.value)
  {
  }

  lemma KeepsExactly(managed: seq<Item>, user: seq<Item>, spilled: seq<Item>)
    requires NoIncludes(managed)
    requires forall name: string :: Reserved(name) ==> Lookup(Sets(user), name) == Lookup(Sets(spilled), name)
    ensures KeepsReserved(managed + user, Sets(managed)) <==> NoIncludes(user) && NoOtherValue(spilled, Sets(managed))
  {
    hide Reserved, InForce, Lookup, Sets, NoIncludes;
    AllOfBoth(managed, user);
    if NoIncludes(user) {
      SetsOfBoth(managed, user);
      forall name: string, files: Files | Reserved(name)
        ensures InForce(managed + user, files) == Some(Sets(managed) + Sets(user))
        ensures Lookup(Sets(managed) + Sets(user), name)
             == if Lookup(Sets(spilled), name).Some? then Lookup(Sets(spilled), name) else Lookup(Sets(managed), name)
      {
        WithoutIncludes(managed + user, files);
        LookupBoth(Sets(managed), Sets(user), name);
      }
      if KeepsReserved(managed + user, Sets(managed)) {
        forall name: string | Reserved(name) && Lookup(Sets(spilled), name).Some?
          ensures Lookup(Sets(spilled), name) == Lookup(Sets(managed), name)
        {
          assert InForce(managed + user, Nowhere()).Some?;
        }
      }
    } else {
      ArchiveModeIsReserved();
      WithoutIncludes(managed + user, Nowhere());
    }
  }

  lemma ReservedIsNoUserName(params: seq<Setting>, name: string)
    requires Reserved(name) && forall p :: p in params ==> Accepted(p)
    ensures var entries := UserEntries(Sort(ByKey(), params));
            forall i :: 0 <= i < |entries| && entries[i].Assign? ==> entries[i].key != name
  {
    hide Reserved, Normal;
    UserNames(params, name);
  }

  /** No line behind a value is a directive or sets this name. */
  predicate SpillsNot(value: string, name: string) {
    LeavesOut(Spill(Quoted(value)), name)
  }

  predicate LeavesOut(items: seq<Item>, name: string) {
    forall item :: item in items ==> item.Set? && item.name != name
  }

  predicate SpillLacks(e: Entry, name: string) {
    e.Assign? ==> LeavesOut(Spill(e.value), name)
  }

  lemma {:induction false} NothingSpilled(entries: seq<Entry>, name: string)
    requires forall i :: 0 <= i < |entries| ==> SpillLacks(entries[i], name)
    ensures Lookup(Sets(Spilled(entries)), name).None? && NoIncludes(Spilled(entries))
  {
    hide Spill;
    if entries != [] {
      var spill := if entries[0].Assign? then Spill(entries[0].value) else [];
      assert SpillLacks(entries[0], name);
      NothingSpilled(entries[1..], name);
      LackedIsNotSet(spill, name);
      SetsOfBoth(spill, Spilled(entries[1..]));
      LookupBoth(Sets(spill), Sets(Spilled(entries[1..])), name);
      AllOfBoth(spill, Spilled(entries[1..]));
    }
  }

  lemma LackedIsNotSet(items: seq<Item>, name: string)
    requires LeavesOut(items, name)
    ensures Lookup(Sets(items), name).None? && NoIncludes(items)
  {
    LookupNeedsName(Sets(items), name);
    if Lookup(Sets(items), name).Some? {
      SetsOnlyThose(items, (name, Lookup(Sets(items), name).value));
    }
  }

  /** If no line behind a value gets in the way, a name that an entry has is as the last such entry has it. */
  lemma {:induction false} OwnNameWins(entries: seq<Entry>, name: string) returns (i: nat)
    requires ReadEntries(entries).Some? && NoDirectiveKeys(entries)
    requires forall k :: 0 <= k < |entries| ==> SpillLacks(entries[k], name)
    requires exists k :: 0 <= k < |entries| && entries[k].Assign? && entries[k].key == name
    ensures i < |entries| && entries[i].Assign? && entries[i].key == name
    ensures Lookup(Sets(ReadEntries(entries).value), name) == ReadValue(OnItsLine(entries[i].value))
    ensures ReadValue(OnItsLine(entries[i].value)).Some?
  {
    hide ReadValue, OnItsLine, Spill, Behind, ReadFile, IsDirective, LeavesOut, Lookup;
    var e := entries[0];
    var first, rest := ReadEntry(e).value, ReadEntries(entries[1..]).value;
    SetsOfBoth(first, rest);
    LookupBoth(Sets(first), Sets(rest), name);
    assert forall k :: 0 <= k < |entries[1..]| ==> entries[1..][k] == entries[k + 1];
    if exists k :: 0 <= k < |entries[1..]| && entries[1..][k].Assign? && entries[1..][k].key == name {
      var k := OwnNameWins(entries[1..], name);
      i := k + 1;
    } else {
      i := 0;
      OwnNamesAside(entries[1..], name);
      NothingSpilled(entries[1..], name);
      assert SpillLacks(entries[0], name);
      LackedIsNotSet(Spill(e.value), name);
      FirstIsOwn(e);
      OwnSetting(e.key, ReadValue(OnItsLine(e.value)).value, Spill(e.value), name);
    }
  }

  lemma FirstIsOwn(e: Entry)
    requires e.Assign? && ReadEntry(e).Some?
    ensures ReadValue(OnItsLine(e.value)).Some?
    ensures ReadEntry(e).value == [ItemFor((e.key, ReadValue(OnItsLine(e.value)).value))] + Spill(e.value)
  {
  }

  /**
    The two files as PostgreSQL reads them, one after the other, with no parameter named
    like a directive. Take any name, and values whose further lines are no directives and
    do not set it. Then on any host a user parameter has what its own line says, which is
    what the user wrote exactly if that is readable, and every other name is managed.
  */
  lemma FilesTogether(m: Managed, params: seq<Setting>, files: Files, name: string)
    requires DistinctParameters(params) && NoDirectives(params)
    requires forall p :: p in params ==> Accepted(p) && SpillsNot(p.1, name)
    requires ReadFile(m.Render()).Some? && InForce(ReadFile(m.Render()).value, files).Some?
    requires ReadFile(TextOf(UserFile(params))).Some?
    ensures ReadFile(BothFiles(m, params)).Some? && InForce(ReadFile(BothFiles(m, params)).value, files).Some?
    ensures var managed, both := InForce(ReadFile(m.Render()).value, files).value,
                                 InForce(ReadFile(BothFiles(m, params)).value, files).value;
            && (Reserved(name) ==> Lookup(both, name) == Lookup(managed, name))
            && (forall p :: p in params && Normal(p.0) == name ==>
                  && Lookup(both, name) == ReadValue(OnItsLine(Quoted(p.1)))
                  && (Lookup(both, name) == Some(p.1) <==> Readable(p.1)))
            && ((forall p :: p in params ==> Normal(p.0) != name) ==> Lookup(both, name) == Lookup(managed, name))
  {
    hide Reserved, ReadFile, Managed.Render, BothFiles, UserFile, UserEntries, ReadEntries, Spilled, TextOf, Sort, InForce;
    hide Lookup, Sets, NoIncludes, NoDirectives, Normal, NoDirectiveKeys, DistinctParameters, Readable, ReadValue,
         OnItsLine;
    hide SpillLacks, Spill, ValidName;
    BothFilesRead(m, params);
    UserReads(params);
    var entries := UserEntries(Sort(ByKey(), params));
    var managed, user := ReadFile(m.Render()).value, ReadEntries(entries).value;
    UserSpillLacks(params, name);
    NothingSpilled(entries, name);
    IncludesEntryByEntry(entries);
    UserDirectives(params);
    WithoutIncludes(user, files);
    InForceBoth(managed, user, files);
    LookupBoth(InForce(managed, files).value, Sets(user), name);
    if p :| p in params && Normal(p.0) == name {
      UserHasName(params, p);
      var i := OwnNameWins(entries, name);
      OnlyOneHasIt(params, p, i);
      ValueOnItsLine(p.1);
      assert forall q :: q in params && Normal(q.0) == name ==> q == p by {
        OnlyOne(params, p);
      }
    } else {
      UserNames(params, name);
      OwnNamesAside(entries, name);
    }
  }

  lemma UserSpillLacks(params: seq<Setting>, name: string)
    requires forall p :: p in params ==> SpillsNot(p.1, name)
    ensures var entries := UserEntries(Sort(ByKey(), params));
            forall i :: 0 <= i < |entries| ==> SpillLacks(entries[i], name)
  {
    hide Normal, UserEntries, Sort, Spill, LeavesOut;
    var sorted := Sort(ByKey(), params);
    SortKeepsMembers(params);
    if sorted == [] {
      NoUserEntries();
    } else {
      UserEntryAt(sorted, 0);
    }
    forall i | 0 <= i < |sorted| ensures SpillLacks(UserEntries(sorted)[i], name) {
      UserEntryAt(sorted, i);
      assert sorted[i] in params;
    }
  }

  lemma UserHasName(params: seq<Setting>, p: Setting)
    requires p in params
    ensures var entries := UserEntries(Sort(ByKey(), params));
            exists i :: 0 <= i < |entries| && entries[i].Assign? && entries[i].key == Normal(p.0)
  {
    hide Normal, UserEntries, Sort;
    var sorted := Sort(ByKey(), params);
    SortKeepsMembers(params);
    var i :| 0 <= i < |sorted| && sorted[i] == p;
    UserEntryAt(sorted, i);
  }

  lemma OnlyOneHasIt(params: seq<Setting>, p: Setting, i: nat)
    requires DistinctParameters(params) && p in params
    requires var entries := UserEntries(Sort(ByKey(), params));
             i < |entries| && entries[i].Assign? && entries[i].key == Normal(p.0)
    ensures UserEntries(Sort(ByKey(), params))[i].value == Quoted(p.1)
  {
    hide Normal, UserEntries, Sort, DistinctParameters;
    var sorted := Sort(ByKey(), params);
    SortKeepsMembers(params);
    if sorted == [] {
      NoUserEntries();
    } else {
      UserEntryAt(sorted, 0);
      UserEntryAt(sorted, i);
      OnlyOne(params, p);
      assert sorted[i] in params;
    }
  }

  // ---- a value that sets another name ------------------------------

  /** A value of two lines: the first ends its string, the second is a setting, with the closing quote in a comment. */
  function TwoLines(name: string, word: string): string {
    "x\\'\n" + Second(name, word)
  }

  function Second(name: string, word: string): string {
    name + " = " + (word + " #")
  }

  lemma {:induction false} NothingDoubled(s: string)
    requires '\'' !in s
    ensures Doubled(s) == s
  {
    if s != "" {
      NothingDoubled(s[1..]);
    }
  }

  lemma SecondIsPlain(name: string, word: string)
    requires IsNormal(name) && ValidValue(Bare(word))
    ensures '\'' !in Second(name, word) && '\n' !in Second(name, word)
  {
    assert forall i :: 0 <= i < |name| ==> name[i] != '\'' && name[i] != '\n';
    assert forall i :: 0 <= i < |word| ==> word[i] != '\'' && word[i] != '\n';
  }

  lemma TwoLinesAreWritten(name: string, word: string)
    requires IsNormal(name) && ValidValue(Bare(word))
    ensures Written(Quoted(TwoLines(name, word))) == "'x\\''\n" + (name + " = " + (word + " #'") + "\n")
    ensures '\n' !in Second(name, word)
  {
    hide IsNormal, ValidValue, Doubled, Second;
    var tail := "\n" + Second(name, word);
    SecondIsPlain(name, word);
    NothingDoubled(tail);
    DoubledQuoteInside(tail);
    assert TwoLines(name, word) == "x\\'" + tail;
    InOnePiece(name, word);
  }

  lemma InOnePiece(name: string, word: string)
    ensures "'" + ("x\\''" + ("\n" + Second(name, word))) + "'" + "\n"
         == "'x\\''\n" + (name + " = " + (word + " #'") + "\n")
  {
    assert (word + " #") + "'" == word + " #'";
    assert "'" + ("x\\''" + ("\n" + Second(name, word))) == "'x\\''\n" + Second(name, word);
    assert Second(name, word) + "'" == name + " = " + ((word + " #") + "'");
  }

  lemma DoubledQuoteInside(tail: string)
    ensures Doubled("x\\'" + tail) == "x\\''" + Doubled(tail)
  {
    var a, b, c := "x\\'" + tail, "\\'" + tail, "'" + tail;
    assert a[1..] == b && b[1..] == c && c[1..] == tail;
    assert Doubled(c) == "''" + Doubled(tail);
    assert Doubled(b) == ['\\'] + Doubled(c) && Doubled(a) == ['x'] + Doubled(b);
    assert ['x'] + (['\\'] + ("''" + Doubled(tail))) == "x\\''" + Doubled(tail);
  }

  lemma WordThenComment(word: string)
    requires ValidValue(Bare(word))
    ensures ReadValue(word + " #'") == Some(word)
  {
    WordEnds(word, " #'");
    var s := word + " #'";
    assert s[..|word|] == word && s[|word|..] == " #'";
    assert (" #'")[1..] == "#'";
    assert SkipBlanks(" #'") == "#'";
    assert s[0] == word[0] && IsWordChar(word[0]);
  }

  lemma {:induction false} WordEnds(word: string, rest: string)
    requires forall i :: 0 <= i < |word| ==> IsWordChar(word[i])
    requires rest != "" && !IsWordChar(rest[0])
    ensures WordLength(word + rest) == |word|
  {
    if word == "" {
      assert word + rest == rest;
    } else {
      assert (word + rest)[1..] == word[1..] + rest;
      WordEnds(word[1..], rest);
    }
  }

  lemma EscapedQuoteIsRead()
    ensures ReadValue("'x\\''") == Some("x'")
  {
    var a, b, c := "x\\''", "\\''", "'";
    assert "'x\\''"[1..] == a && a[1..] == b && b[2..] == c && c[1..] == "";
    assert Unquote(c) == Some(("", ""));
    assert ['\''] + "" == "'" && ['x'] + "'" == "x'";
    assert Escaped('\'') == '\'';
    assert Unquote(b) == Prepend('\'', Unquote(c));
    assert Unquote(a) == Prepend('x', Unquote(b));
  }

  lemma TwoLinesAreRead(name: string, word: string)
    requires IsNormal(name) && ValidValue(Bare(word))
    ensures var v := Quoted(TwoLines(name, word));
            ReadValue(OnItsLine(v)) == Some("x'") && ReadFile(Behind(v)) == Some([ItemFor((name, word))])
  {
    hide ReadValue, ReadLine, ReadFile, IsNormal, ValidValue, TwoLines, ValueText, ItemFor, LineEnd;
    TwoLinesAreWritten(name, word);
    var v, text := Quoted(TwoLines(name, word)), word + " #'";
    var first, line := "'x\\''", name + " = " + text;
    assert Written(v) == first + "\n" + (line + "\n");
    LineIsWhole(first, line + "\n");
    assert OnItsLine(v) == first && Behind(v) == line + "\n";
    EscapedQuoteIsRead();
    WordThenComment(word);
    assert '\n' !in line by {
      SecondIsOneLine(name, word);
    }
    LineIsWhole(line, "");
    assert line + "\n" + "" == line + "\n";
    assert (line + "\n")[..|line|] == line && (line + "\n")[|line| + 1..] == "";
    StartsWithAWord(word);
    AssignmentIsRead(name, text);
    ReadsFirstLine(line + "\n");
    NothingIsRead();
    BothIsAssociative(Some([ItemFor((name, word))]), None, None);
  }

  lemma SecondIsOneLine(name: string, word: string)
    requires '\n' !in Second(name, word)
    ensures '\n' !in name + " = " + (word + " #'")
  {
    var second := Second(name, word);
    assert name + " = " + (word + " #'") == second + "'";
  }

  lemma StartsWithAWord(word: string)
    requires ValidValue(Bare(word))
    ensures word + " #'" != "" && !IsBlank((word + " #'")[0])
  {
    assert (word + " #'")[0] == word[0] && IsWordChar(word[0]);
  }

  lemma WorkMemIsAName()
    ensures Normal("work_mem") == "work_mem" && ValidName("work_mem") && !IsDirective("work_mem") && !Reserved("work_mem")
  {
    var s := "work_mem";
    assert ValidName(s) && Trim(s) == s by {
      assert forall i :: 0 <= i < |s| ==> IsLower(s[i]) || s[i] == '_';
    }
    assert ToAsciiLowercase(s) == s by {
      assert forall i :: 0 <= i < |s| ==> ToLower(s[i]) == s[i];
    }
    assert forall i :: 0 <= i < |RESERVED| ==> |RESERVED[i]| != 8;
  }

  lemma SortedAlone(p: Setting)
    ensures Sort(ByKey(), [p]) == [p]
  {
    SortKeepsMembers([p]);
    assert Sort(ByKey(), [p])[0] in Sort(ByKey(), [p]);
  }

  /** One accepted parameter, of a harmless name, that sets any other name to any word, on every host. */
  lemma AValueCanSetAnything(m: Managed, name: string, word: string, files: Files)
    requires IsNormal(name) && !IsDirective(name) && ValidValue(Bare(word))
    requires ReadFile(m.Render()).Some? && InForce(ReadFile(m.Render()).value, files).Some?
    ensures var params := [("work_mem", TwoLines(name, word))];
            && Accepted(params[0]) && NoDirectives(params) && ReadFile(BothFiles(m, params)).Some?
            && var now := InForce(ReadFile(BothFiles(m, params)).value, files);
               now.Some? && Lookup(now.value, name) == Some(word)
  {
    hide ReadFile, Managed.Render, BothFiles, Normal, ValidName, Reserved, TwoLines, ReadEntries, Sort, IsNormal,
         ValidValue;
    hide InForce, Lookup, TextOf, ReadEntry, Spilled, UserEntries, UserFile, Sets, NoIncludes, IsDirective, OnItsLine,
         Behind, ReadValue;
    var p := ("work_mem", TwoLines(name, word));
    WorkMemIsAName();
    SortedAlone(p);
    TwoLinesAreRead(name, word);
    BothFilesRead(m, [p]);
    UserReads([p]);
    var entry := Assign("work_mem", Quoted(p.1));
    OneEntry(p);
    var items := [Set("work_mem", "x'"), Set(name, word)];
    OneEntryReads(entry);
    TwoItems(p.1, items);
    WithoutIncludes(items, files);
    InForceBoth(ReadFile(m.Render()).value, items, files);
    LookupBoth(InForce(ReadFile(m.Render()).value, files).value, Sets(items), name);
    LastOfTwo(name, word);
  }

  lemma TwoItems(value: string, items: seq<Item>)
    requires |items| == 2 && items[0] == Set("work_mem", "x'")
    requires !IsDirective("work_mem")
    requires ReadValue(OnItsLine(Quoted(value))) == Some("x'") && ReadFile(Behind(Quoted(value))) == Some([items[1]])
    ensures ReadEntry(Assign("work_mem", Quoted(value))) == Some(items)
  {
    hide ReadValue, ReadFile, OnItsLine, Behind, IsDirective;
    assert [ItemFor(("work_mem", "x'"))] + [items[1]] == items;
  }

  lemma OneEntry(p: Setting)
    ensures UserEntries([p]) == [Assign(Normal(p.0), Quoted(p.1))]
  {
    hide Normal;
    assert [p][..0] == [];
  }

  lemma OneEntryReads(e: Entry)
    ensures ReadEntries([e]) == ReadEntry(e)
  {
    hide ReadEntry, Both;
    assert [e][1..] == [];
    BothIsAssociative(ReadEntry(e), None, None);
  }

  lemma LastOfTwo(name: string, word: string)
    ensures var items := [Set("work_mem", "x'"), Set(name, word)];
            Lookup(Sets(items), name) == Some(word) && NoIncludes(items)
  {
    var items := [Set("work_mem", "x'"), Set(name, word)];
    assert items[1..] == [Set(name, word)] && items[1..][1..] == [];
    assert Sets(items[1..]) == [(name, word)];
    assert Sets(items) == [("work_mem", "x'"), (name, word)];
  }

  /** The input: archiving is on in a managed file that is read as it was meant, and one value turns it off. */
  lemma AValueTurnsArchivingOff(m: Managed, files: Files)
    requires m.Valid() && m.archive.On?
    ensures var params := [("work_mem", "x\\'\narchive_mode = off #")];
            && Accepted(params[0]) && NoDirectives(params) && ReadFile(BothFiles(m, params)).Some?
            && var now := InForce(ReadFile(BothFiles(m, params)).value, files);
               now.Some? && Lookup(now.value, "archive_mode") == Some("off")
    ensures ReadFile(m.Render()).Some? && InForce(ReadFile(m.Render()).value, files).Some?
    ensures Lookup(InForce(ReadFile(m.Render()).value, files).value, "archive_mode") == Some("on")
  {
    hide Managed.Entries, Managed.Render, Managed.Valid, BothFiles, SettingsOf, ReadFile, InForce, Lookup, Accepted;
    hide Items, NoDirectives, AllNamed, AllValid, OnlySettings;
    assert TwoLines("archive_mode", "off") == "x\\'\narchive_mode = off #";
    ArchiveNames();
    LowerNameIsNormal("archive_mode");
    WordsAreValid();
    ManagedIsRead(m);
    JustSettings(SettingsOf(m.Entries()), files);
    RecoverabilityIsManaged(m);
    AValueCanSetAnything(m, "archive_mode", "off", files);
  }

  // ---- the managed file --------------------------------------------

  lemma {:induction false} ValidIsReadWhole(entries: seq<Entry>)
    requires AllValid(entries)
    ensures Spilled(entries) == [] && ReadEntries(entries).Some?
  {
    hide Spill, ReadEntry, ValidEntry;
    if entries != [] {
      assert forall i :: 0 <= i < |entries[1..]| ==> entries[1..][i] == entries[i + 1];
      ValidIsReadWhole(entries[1..]);
      ValidEntryIsReadWhole(entries[0]);
    }
  }

  lemma ValidEntryIsReadWhole(e: Entry)
    requires ValidEntry(e)
    ensures ReadEntry(e) == Some(Items(SettingOf(e))) && (e.Assign? ==> Spill(e.value) == [])
  {
    hide ReadValue, ReadFile, OnItsLine, IsNormal, ItemFor;
    if e.Assign? {
      match e.value {
        case Quoted(text) =>
          ValueOnItsLine(text);
          NothingIsRead();
        case Bare(word) =>
          WordsHaveNothingBehind(word);
          OneLineBehind(word);
      }
      var own := [ItemFor((e.key, Plain(e.value)))];
      assert Items(SettingOf(e)) == own;
      BothIsAssociative(Some(own), None, None);
    } else {
      ItemsOfNone();
    }
  }

  lemma OneLineBehind(word: string)
    requires ValidValue(Bare(word))
    ensures ReadFile(Behind(Bare(word))) == Some([])
  {
    assert '\n' !in word;
    assert Written(Bare(word)) == word + "\n" + "";
    LineIsWhole(word, "");
  }

  /** A name set once, before any value that may have lines behind: they alone can change it. */
  lemma ReadOnce(front: seq<Entry>, e: Entry, back: seq<Entry>)
    requires AllValid(front) && e.Assign? && ValidEntry(e) && !IsDirective(e.key) && NoneOfLength(back, |e.key|)
    requires ReadEntries(front + [e] + back).Some?
    ensures var all := front + [e] + back;
            var spilled := Lookup(Sets(Spilled(all)), e.key);
            Lookup(Sets(ReadEntries(all).value), e.key) == if spilled.Some? then spilled else Some(Plain(e.value))
  {
    hide ReadEntries, ReadEntry, Spill, Spilled, Sets, Lookup, IsDirective, ValidEntry;
    EntriesInParts(front + [e], back);
    EntriesInParts(front, [e]);
    ValidIsReadWhole(front);
    assert AllValid([e]);
    ValidIsReadWhole([e]);
    ValidEntryIsReadWhole(e);
    OneEntryReads(e);
    OwnNamesAside(back, e.key);
    var before, own, after := ReadEntries(front).value, ReadEntries([e]).value, ReadEntries(back).value;
    SetsOfBoth(before + own, after);
    SetsOfBoth(before, own);
    LookupBoth(Sets(before + own), Sets(after), e.key);
    LookupBoth(Sets(before), Sets(own), e.key);
    assert own == [ItemFor((e.key, Plain(e.value)))] + [];
    NoItems(e.key);
    OwnSetting(e.key, Plain(e.value), [], e.key);
    assert [] + [] + Spilled(back) == Spilled(back);
  }

  lemma NoItems(name: string)
    ensures Lookup(Sets([]), name).None?
  {
  }

  /** What a cluster needs of its managed file to stay recoverable. */
  function Needed(m: Managed): seq<Setting> {
    [("wal_level", "replica"), ("wal_log_hints", "on"), ("archive_mode", if m.archive.On? then "on" else "off")]
  }

  predicate HasAll(settings: seq<Setting>, needed: seq<Setting>) {
    forall s :: s in needed ==> Lookup(settings, s.0) == Some(s.1)
  }

  /** Where some lines set one of those names, the last gives it the value it has anyway. */
  predicate GivesNoOther(spilled: seq<Setting>, needed: seq<Setting>) {
    forall s :: s in needed ==> Lookup(spilled, s.0).None? || Lookup(spilled, s.0) == Some(s.1)
  }

  ghost predicate RecoverableAnywhere(items: seq<Item>, needed: seq<Setting>) {
    forall files: Files :: InForce(items, files).Some? && HasAll(InForce(items, files).value, needed)
  }

  /**
    In every configuration whose file can be read, the settings recovery depends on are
    in force on every host exactly if the lines behind its values hold no directive and
    give none of the three names another value.
  */
  lemma RecoverabilityIsRead(m: Managed)
    requires ReadFile(m.Render()).Some?
    ensures RecoverableAnywhere(ReadFile(m.Render()).value, Needed(m))
       <==> NoIncludes(Spilled(m.Entries())) && GivesNoOther(Sets(Spilled(m.Entries())), Needed(m))
  {
    hide ReadFile, Managed.Render, Managed.Entries, ReadEntries, Spilled, InForce, NoIncludes, Sets, Lookup;
    ManagedIsReadByEntry(m);
    var items, spilled, needed := ReadFile(m.Render()).value, Spilled(m.Entries()), Needed(m);
    IncludesEntryByEntry(m.Entries());
    WithoutIncludes(items, Nowhere());
    NeededIsSet(m);
    if NoIncludes(items) {
      forall files: Files ensures InForce(items, files) == Some(Sets(items)) {
        WithoutIncludes(items, files);
      }
      assert HasAll(Sets(items), needed) <==> GivesNoOther(Sets(spilled), needed);
      if RecoverableAnywhere(items, needed) {
        assert InForce(items, Nowhere()).Some?;
      }
    } else {
      assert InForce(items, Nowhere()).None?;
    }
  }

  lemma ManagedIsReadByEntry(m: Managed)
    ensures ReadFile(m.Render()) == ReadEntries(m.Entries()) && NoDirectiveKeys(m.Entries())
  {
    hide *;
    ManagedIsRead(m);
    RenderIsText(m);
    FileReads(m.Entries());
    ManagedIsProper(m);
    ProperHasNoDirectives(m.Entries(), m.Valid());
  }

  lemma ProperHasNoDirectives(entries: seq<Entry>, fine: bool)
    requires Proper(entries, fine)
    ensures NoDirectiveKeys(entries)
  {
  }

  lemma NeededIsSet(m: Managed)
    requires ReadEntries(m.Entries()).Some?
    ensures forall s :: s in Needed(m) ==>
              Lookup(Sets(ReadEntries(m.Entries()).value), s.0)
              == if Lookup(Sets(Spilled(m.Entries())), s.0).Some? then Lookup(Sets(Spilled(m.Entries())), s.0) else Some(s.1)
  {
    hide ReadEntries, Spilled, Sets, Lookup, Later, NoneOfLength, AllValid, ValidEntry, IsDirective, Proper;
    hide Managed.ConnectivityEntries, Managed.SupervisionEntries;
    var front, wal, archive, later := m.ConnectivityEntries(), m.WalEntries(), m.ArchiveEntries(), Later(m);
    LaterIs(m);
    BehindWalLevel(m);
    BehindArchiveMode(m);
    FrontIsValid(m);
    NeededNames();
    SplitInside(front, wal, archive, later, 2);
    ReadOnce(front + wal[..2], wal[2], wal[3..] + archive + later);
    SplitInside(front, wal, archive, later, 3);
    ReadOnce(front + wal[..3], wal[3], wal[4..] + archive + later);
    var k := if m.archive.On? then 0 else 2;
    assert m.Entries() == (front + wal + archive[..k]) + [archive[k]] + (archive[k + 1..] + later);
    ReadOnce(front + wal + archive[..k], archive[k], archive[k + 1..] + later);
  }

  lemma NeededNames()
    ensures !IsDirective("wal_level") && !IsDirective("wal_log_hints") && !IsDirective("archive_mode")
    ensures |"wal_level"| == 9 && |"wal_log_hints"| == 13 && |"archive_mode"| == 12
  {
  }

  /** Nothing up to `archive_mode` depends on the configuration, but for the port. */
  lemma FrontIsValid(m: Managed)
    ensures var front, wal, archive := m.ConnectivityEntries(), m.WalEntries(), m.ArchiveEntries();
            && AllValid(front + wal[..2]) && AllValid(front + wal[..3]) && ValidEntry(wal[2]) && ValidEntry(wal[3])
            && var k := if m.archive.On? then 0 else 2;
               AllValid(front + wal + archive[..k]) && ValidEntry(archive[k])
  {
    hide ManagedName, ValidValue, IsNormal, Managed.ConnectivityEntries, Managed.WalEntries, AllValid, NamedPlainly;
    var front, wal, archive := m.ConnectivityEntries(), m.WalEntries(), m.ArchiveEntries();
    ConnectivityIsProper(m);
    WalIsProper(m);
    ProperIsValid(front, true);
    ProperIsValid(wal, true);
    assert |wal| > 3 by {
      EnoughWal(m);
    }
    var k := if m.archive.On? then 0 else 2;
    ArchiveNames();
    WordsAreValid();
    assert IsNormal("archive_mode") by {
      AreNormal();
    }
    SliceIsValid(wal, 2);
    SliceIsValid(wal, 3);
    assert AllValid(archive[..k]) by {
      CommentsAreValid(archive[..k]);
    }
    BothValid(front, wal[..2]);
    BothValid(front, wal[..3]);
    BothValid(front, wal);
    BothValid(front + wal, archive[..k]);
  }

  lemma AreNormal()
    ensures IsNormal("archive_mode")
  {
    ArchiveNames();
    LowerNameIsNormal("archive_mode");
  }

  lemma EnoughWal(m: Managed)
    ensures |m.WalEntries()| == 8
  {
  }

  lemma SliceIsValid(entries: seq<Entry>, k: nat)
    requires k < |entries| && AllValid(entries)
    ensures AllValid(entries[..k]) && ValidEntry(entries[k])
  {
  }

  lemma CommentsAreValid(entries: seq<Entry>)
    requires forall i :: 0 <= i < |entries| ==> entries[i].Comment?
    ensures AllValid(entries)
  {
  }

  function WithLibrary(port: nat, command: string, library: string): Managed {
    Managed(port, On(command), [library], None, None)
  }

  /** The same input on the managed side: the name of a library turns archiving off, though a command was given. */
  lemma ALibraryTurnsArchivingOff(port: nat, command: string, files: Files)
    requires Readable(command)
    ensures var m := WithLibrary(port, command, TwoLines("archive_mode", "off"));
            && ReadFile(m.Render()).Some?
            && var now := InForce(ReadFile(m.Render()).value, files);
               now.Some? && Lookup(now.value, "archive_mode") == Some("off")
  {
    hide ReadFile, Managed.Render, ReadEntries, Spilled, InForce, TwoLines, IsNormal, ValidValue, Readable;
    hide Managed.ConnectivityEntries, Managed.WalEntries, Managed.ArchiveEntries, Managed.SupervisionEntries, Proper;
    var library := TwoLines("archive_mode", "off");
    var m := WithLibrary(port, command, library);
    AreNormal();
    WordsAreValid();
    NeededNames();
    TwoLinesAreRead("archive_mode", "off");
    var front := m.ConnectivityEntries() + m.WalEntries() + m.ArchiveEntries() + m.SupervisionEntries();
    var last := Assign("shared_preload_libraries", Quoted(library));
    var items := [Set("shared_preload_libraries", "x'"), Set("archive_mode", "off")];
    LibraryEntries(port, command, library);
    BeforeLibrary(m);
    ValidIsReadWhole(front);
    EntriesInParts(front + [Blank, Comment], [last]);
    EntriesInParts(front, [Blank, Comment]);
    OneEntryReads(last);
    LibraryReads(library, items);
    ManagedIsReadByEntry(m);
    var before := ReadEntries(front).value;
    assert before + [] + items == before + items;
    IncludesEntryByEntry(front);
    AllOfBoth(before, items);
    WithoutIncludes(before + items, files);
    SetsOfBoth(before, items);
    LookupBoth(Sets(before), Sets(items), "archive_mode");
    LastIsArchiveMode(items);
  }

  lemma LastIsArchiveMode(items: seq<Item>)
    requires items == [Set("shared_preload_libraries", "x'"), Set("archive_mode", "off")]
    ensures Lookup(Sets(items), "archive_mode") == Some("off") && NoIncludes(items)
  {
    assert items[1..] == [Set("archive_mode", "off")] && items[1..][1..] == [];
    assert Sets(items[1..]) == [("archive_mode", "off")];
    assert Sets(items) == [("shared_preload_libraries", "x'"), ("archive_mode", "off")];
  }

  lemma LibraryReads(library: string, items: seq<Item>)
    requires |items| == 2 && items[0] == Set("shared_preload_libraries", "x'")
    requires ReadValue(OnItsLine(Quoted(library))) == Some("x'") && ReadFile(Behind(Quoted(library))) == Some([items[1]])
    ensures ReadEntry(Assign("shared_preload_libraries", Quoted(library))) == Some(items)
    ensures ReadEntries([Blank, Comment]) == Some([])
  {
    hide ReadValue, ReadFile, OnItsLine, Behind;
    assert ItemFor(("shared_preload_libraries", "x'")) == items[0];
    assert [items[0]] + [items[1]] == items;
    assert [Blank, Comment][1..] == [Comment] && [Comment][1..] == [];
    NothingSaid();
    BothIsAssociative(Some([]), None, None);
    assert ReadEntries([Comment]) == Both(Some([]), ReadEntries([]));
  }

  lemma LibraryEntries(port: nat, command: string, library: string)
    ensures var m := WithLibrary(port, command, library);
            m.Entries() == m.ConnectivityEntries() + m.WalEntries() + m.ArchiveEntries() + m.SupervisionEntries()
                           + [Blank, Comment] + [Assign("shared_preload_libraries", Quoted(library))]
  {
    hide Managed.ConnectivityEntries, Managed.WalEntries, Managed.ArchiveEntries, Managed.SupervisionEntries;
    assert Joined([library]) == library;
  }

  lemma BeforeLibrary(m: Managed)
    requires m.archive.On? ==> Readable(m.archive.command)
    ensures var front := m.ConnectivityEntries() + m.WalEntries() + m.ArchiveEntries() + m.SupervisionEntries();
            AllValid(front) && NoDirectiveKeys(front)
  {
    hide Managed.ConnectivityEntries, Managed.WalEntries, Managed.ArchiveEntries, Managed.SupervisionEntries, Proper;
    hide NoDirectiveKeys, AllValid, Readable;
    var a, b, c, d := m.ConnectivityEntries(), m.WalEntries(), m.ArchiveEntries(), m.SupervisionEntries();
    ConnectivityIsProper(m);
    WalIsProper(m);
    ArchiveIsProper(m);
    SupervisionIsProper(m);
    ProperBoth(a, b, true, true);
    ProperBoth(a + b, c, true, m.archive.On? ==> Readable(m.archive.command));
    ProperBoth(a + b + c, d, m.archive.On? ==> Readable(m.archive.command), true);
    ProperIsValid(a + b + c + d, true);
    ProperHasNoDirectives(a + b + c + d, true);
  }
}
