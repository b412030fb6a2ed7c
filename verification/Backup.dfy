/** Choosing a backup for a point in time, and the version it can be restored into. */
module Backup {
  import opened Wrappers
  import opened Sorting

  datatype Backup = Backup(name: string, stop: int, database: int)

  /** One entry of a stanza's history: an ID and the PostgreSQL version it stands for. */
  datatype History = History(id: int, version: string)

  function ByStop(): (Backup, Backup) -> bool {
    (a: Backup, b: Backup) => a.stop <= b.stop
  }

  function OldestFirst(backups: seq<Backup>): seq<Backup> {
    Sort(ByStop(), backups)
  }

  /** A backup serves a target if it had finished by then; without a target, every backup does. */
  predicate Serves(b: Backup, at: Option<int>) {
    at.None? || b.stop <= at.value
  }

  /** The last element that serves. */
  function FindLast(backups: seq<Backup>, at: Option<int>): Option<Backup> {
    if backups == [] then None
    else if Serves(backups[|backups| - 1], at) then Some(backups[|backups| - 1])
    else FindLast(backups[..|backups| - 1], at)
  }

  function ForTarget(backups: seq<Backup>, at: Option<int>): Option<Backup> {
    FindLast(OldestFirst(backups), at)
  }

  /** One pass, keeping the newest that serves; of two that stopped together, the later entry. */
  function Scan(backups: seq<Backup>, at: Option<int>): (best: Option<Backup>)
    ensures best.Some? ==> best.value in backups && Serves(best.value, at)
    ensures forall b :: b in backups && Serves(b, at) ==> best.Some? && b.stop <= best.value.stop
  {
    if backups == [] then None
    else
      var best := Scan(backups[1..], at);
      assert backups == [backups[0]] + backups[1..];
      if Serves(backups[0], at) && (best.None? || backups[0].stop > best.value.stop) then Some(backups[0]) else best
  }

  lemma {:induction false} FindLastOfCons(b: Backup, rest: seq<Backup>, at: Option<int>)
    ensures FindLast([b] + rest, at)
         == if FindLast(rest, at).Some? then FindLast(rest, at) else if Serves(b, at) then Some(b) else None
  {
    var all := [b] + rest;
    if rest != [] {
      assert all[..|all| - 1] == [b] + rest[..|rest| - 1];
      assert all[|all| - 1] == rest[|rest| - 1];
      FindLastOfCons(b, rest[..|rest| - 1], at);
    } else {
      assert all[..0] == [];
    }
  }

  /** Inserting before everything that is not older changes the answer only if nothing served as well. */
  lemma {:induction false} FindLastOfInsert(b: Backup, s: seq<Backup>, at: Option<int>)
    requires SortedBy(ByStop(), s)
    ensures FindLast(Insert(ByStop(), b, s), at)
         == if Serves(b, at) && (FindLast(s, at).None? || b.stop > FindLast(s, at).value.stop) then Some(b)
            else FindLast(s, at)
  {
    if s == [] {
      FindLastOfCons(b, [], at);
    } else {
      assert s == [s[0]] + s[1..];
      FindLastOfCons(s[0], s[1..], at);
      FoundIsMember(s[1..], at);
      if ByStop()(b, s[0]) {
        FindLastOfCons(b, s, at);
      } else {
        FindLastOfInsert(b, s[1..], at);
        FindLastOfCons(s[0], Insert(ByStop(), b, s[1..]), at);
      }
    }
  }

  lemma {:induction false} FoundIsMember(s: seq<Backup>, at: Option<int>)
    ensures FindLast(s, at).Some? ==> FindLast(s, at).value in s && Serves(FindLast(s, at).value, at)
  {
    if s != [] {
      FoundIsMember(s[..|s| - 1], at);
    }
  }

  lemma ByStopIsTotal()
    ensures TotalPreorder(ByStop())
  {
  }

  /**
    Sorting a copy and searching it from the end is one scan of the list as it
    stands: the newest backup that serves, ties to the later entry, and none
    exactly when none serves. The list may be in any order.
  */
  lemma {:induction false} SortThenSearchIsAScan(backups: seq<Backup>, at: Option<int>)
    ensures ForTarget(backups, at) == Scan(backups, at)
    ensures ForTarget(backups, at).None? <==> forall b :: b in backups ==> !Serves(b, at)
  {
    if backups != [] {
      SortThenSearchIsAScan(backups[1..], at);
      ByStopIsTotal();
      SortSorts(ByStop(), backups[1..]);
      FindLastOfInsert(backups[0], OldestFirst(backups[1..]), at);
    }
  }

  // ---- versions ----------------------------------------------------

  function Known(h: Option<History>): Option<string> {
    if h.Some? && h.value.version != "" then Some(h.value.version) else None
  }

  function FirstWithId(db: seq<History>, id: int): Option<History> {
    if db == [] then None else if db[0].id == id then Some(db[0]) else FirstWithId(db[1..], id)
  }

  /** The largest ID, the last of equals. */
  function Latest(db: seq<History>): Option<History> {
    if db == [] then None
    else
      var h := Latest(db[..|db| - 1]);
      var last := db[|db| - 1];
      if h.None? || last.id >= h.value.id then Some(last) else h
  }

  function VersionOf(db: seq<History>, b: Backup): Option<string> {
    Known(FirstWithId(db, b.database))
  }

  function CurrentVersion(db: seq<History>): Option<string> {
    Known(Latest(db))
  }

  lemma {:induction false} LatestIsInHistory(db: seq<History>)
    ensures db == [] <==> Latest(db).None?
    ensures Latest(db).Some? ==> Latest(db).value in db && forall h :: h in db ==> h.id <= Latest(db).value.id
  {
    if db != [] {
      LatestIsInHistory(db[..|db| - 1]);
      assert db == db[..|db| - 1] + [db[|db| - 1]];
    }
  }

  lemma {:induction false} FirstIsTheOnly(db: seq<History>, h: History)
    requires h in db && forall i, j :: 0 <= i < j < |db| ==> db[i].id != db[j].id
    ensures FirstWithId(db, h.id) == Some(h)
  {
    if db[0] != h {
      assert db == [db[0]] + db[1..];
      var i :| 0 <= i < |db| && db[i] == h;
      assert db[0].id != db[i].id;
      FirstIsTheOnly(db[1..], h);
    }
  }

  /** A backup taken against the newest history entry can be restored into the stanza's current version. */
  lemma NewestHistoryIsCurrent(db: seq<History>, b: Backup)
    requires forall i, j :: 0 <= i < j < |db| ==> db[i].id != db[j].id
    requires db != [] && forall h :: h in db ==> h.id <= b.database
    requires exists h :: h in db && h.id == b.database
    ensures VersionOf(db, b) == CurrentVersion(db)
  {
    LatestIsInHistory(db);
    FirstIsTheOnly(db, Latest(db).value);
  }
}
