/** The migration runner: which files it takes, in which order, and what any sequence of failing runs leaves behind. */
module Migrations {
  import opened Ordering

  // ---------- the sorted file list ----------

  datatype DirEntry = DirEntry(name: string, isDir: bool)

  predicate HasSqlSuffix(name: string) {
    |name| >= 4 && name[|name| - 4..] == ".sql"
  }

  predicate Wanted(e: DirEntry) {
    !e.isDir && HasSqlSuffix(e.name)
  }

  function WantedNames(entries: seq<DirEntry>): seq<string> {
    if entries == [] then []
    else WantedNames(entries[..|entries| - 1]) +
         if Wanted(entries[|entries| - 1]) then [entries[|entries| - 1].name] else []
  }

  lemma {:induction false} WantedHas(entries: seq<DirEntry>, name: string)
    ensures name in WantedNames(entries) <==> exists i :: 0 <= i < |entries| && Wanted(entries[i]) && entries[i].name == name
  {
    if entries != [] {
      var n := |entries| - 1;
      WantedHas(entries[..n], name);
      if name in WantedNames(entries[..n]) {
        var i :| 0 <= i < n && Wanted(entries[..n][i]) && entries[..n][i].name == name;
        assert entries[i] == entries[..n][i];
      }
      forall i | 0 <= i < n && Wanted(entries[i]) && entries[i].name == name
        ensures name in WantedNames(entries[..n])
      {
        assert entries[..n][i] == entries[i];
      }
    }
  }

  ghost predicate DistinctNames(entries: seq<DirEntry>) {
    forall i, j :: 0 <= i < j < |entries| ==> entries[i].name != entries[j].name
  }

  lemma {:induction false} WantedNamesAreDistinct(entries: seq<DirEntry>)
    requires DistinctNames(entries)
    ensures NoRepeats(WantedNames(entries))
  {
    if entries != [] {
      var n := |entries| - 1;
      WantedNamesAreDistinct(entries[..n]);
      WantedHas(entries[..n], entries[n].name);
    }
  }

  /** strings.TrimSuffix(name, filepath.Ext(name)) of a name ending in ".sql". */
  function Version(name: string): string {
    if |name| >= 4 then name[..|name| - 4] else name
  }

  function Versions(names: seq<string>): seq<string> {
    seq(|names|, i requires 0 <= i < |names| => Version(names[i]))
  }

  /** The versions in the order in which they are applied. */
  function Plan(entries: seq<DirEntry>): seq<string> {
    Versions(Sort(WantedNames(entries)))
  }

  lemma {:induction false} VersionsDiffer(a: string, b: string)
    requires HasSqlSuffix(a) && HasSqlSuffix(b) && a != b
    ensures Version(a) != Version(b)
  {
    assert a == Version(a) + ".sql" && b == Version(b) + ".sql";
  }

  /** The plan lists the versions of the wanted files, by ascending file name, without repeats. */
  lemma {:induction false} PlanIsSound(entries: seq<DirEntry>)
    requires DistinctNames(entries)
    ensures Ascending(Sort(WantedNames(entries)))
    ensures multiset(Sort(WantedNames(entries))) == multiset(WantedNames(entries))
    ensures NoRepeats(Plan(entries))
  {
    var wanted := WantedNames(entries);
    var names := Sort(wanted);
    WantedNamesAreDistinct(entries);
    SortSpec(wanted);
    forall i, j | 0 <= i < j < |names|
      ensures Plan(entries)[i] != Plan(entries)[j]
    {
      assert names[i] in multiset(names) && names[j] in multiset(names);
      WantedHas(entries, names[i]);
      WantedHas(entries, names[j]);
      assert Less(names[i], names[j]);
      LessIrreflexive(names[i]);
      VersionsDiffer(names[i], names[j]);
    }
  }

  /** The plan is the sorted list of wanted files, one version per file, which is the name without ".sql". */
  lemma {:induction false} PlanIsTheSortedFiles(entries: seq<DirEntry>)
    requires DistinctNames(entries)
    ensures var names := Sort(WantedNames(entries));
            && |Plan(entries)| == |names|
            && forall i :: 0 <= i < |names| ==> Plan(entries)[i] + ".sql" == names[i]
  {
    var wanted := WantedNames(entries);
    var names := Sort(wanted);
    WantedNamesAreDistinct(entries);
    SortSpec(wanted);
    forall i | 0 <= i < |names|
      ensures Plan(entries)[i] + ".sql" == names[i]
    {
      assert names[i] in multiset(names);
      WantedHas(entries, names[i]);
      assert names[i] == names[i][..|names[i]| - 4] + names[i][|names[i]| - 4..];
    }
  }

  // ---------- runs ----------

  /** Where handling one file may fail; everything up to the commit is rolled back. */
  datatype Fault = NoFault | CheckFails | ReadFails | BeginFails | ExecFails | RecordFails | CommitFails

  /** schema_migrations in insertion order, and the migration scripts whose effects were committed. */
  datatype Schema = Schema(applied: seq<string>, effects: seq<string>)

  function FaultAt(faults: seq<Fault>, i: nat): Fault {
    if i < |faults| then faults[i] else NoFault
  }

  /** One run from file `i` on: the schema it leaves and whether it returns nil. */
  function RunFrom(plan: seq<string>, db: Schema, faults: seq<Fault>, i: nat): (Schema, bool)
    requires i <= |plan|
    decreases |plan| - i
  {
    if i == |plan| then (db, true)
    else if FaultAt(faults, i) == CheckFails then (db, false)
    else if plan[i] in db.applied then RunFrom(plan, db, faults, i + 1)
    else if FaultAt(faults, i) != NoFault then (db, false)
    else RunFrom(plan, Schema(db.applied + [plan[i]], db.effects + [plan[i]]), faults, i + 1)
  }

  /** The applied versions are a prefix of the plan, and exactly their scripts took effect, once each, in order. */
  predicate InStep(plan: seq<string>, db: Schema) {
    |db.applied| <= |plan| && db.applied == plan[..|db.applied|] && db.effects == db.applied
  }

  lemma {:induction false} RunFromKeepsStep(plan: seq<string>, db: Schema, faults: seq<Fault>, i: nat)
    requires NoRepeats(plan) && InStep(plan, db) && i <= |plan| && i <= |db.applied|
    ensures var (db2, ok) := RunFrom(plan, db, faults, i);
            InStep(plan, db2) && |db.applied| <= |db2.applied| && (ok ==> db2.applied == plan)
    decreases |plan| - i
  {
    if i < |plan| {
      if i < |db.applied| {
        assert db.applied[i] == plan[i];
        RunFromKeepsStep(plan, db, faults, i + 1);
      } else {
        assert plan[i] !in plan[..i];
        assert db.applied + [plan[i]] == plan[..i + 1];
        if FaultAt(faults, i) == NoFault {
          RunFromKeepsStep(plan, Schema(db.applied + [plan[i]], db.effects + [plan[i]]), faults, i + 1);
        }
      }
    }
  }

  function RunAll(plan: seq<string>, runs: seq<seq<Fault>>): Schema {
    if runs == [] then Schema([], [])
    else RunFrom(plan, RunAll(plan, runs[..|runs| - 1]), runs[|runs| - 1], 0).0
  }

  /**
   After any sequence of runs, each failing anywhere or nowhere, the applied versions are a prefix of the sorted
   list and each has taken effect exactly once; a further run that returns nil leaves all of them applied.
   */
  lemma {:induction false} MigrationsApplyOnceInOrder(plan: seq<string>, runs: seq<seq<Fault>>, last: seq<Fault>)
    requires NoRepeats(plan)
    ensures InStep(plan, RunAll(plan, runs))
    ensures var (db, ok) := RunFrom(plan, RunAll(plan, runs), last, 0);
            ok ==> db == Schema(plan, plan)
  {
    if runs != [] {
      MigrationsApplyOnceInOrder(plan, runs[..|runs| - 1], runs[|runs| - 1]);
      RunFromKeepsStep(plan, RunAll(plan, runs[..|runs| - 1]), runs[|runs| - 1], 0);
    }
    RunFromKeepsStep(plan, RunAll(plan, runs), last, 0);
  }

  /** The fault of a file ends the run: its check always counts, the rest only if the version is not applied yet. */
  predicate Blocks(faults: seq<Fault>, applied: nat, i: nat) {
    FaultAt(faults, i) == CheckFails || (i >= applied && FaultAt(faults, i) != NoFault)
  }

  /** The first file from `i` on whose fault ends the run, or the end of the plan. */
  function Stop(plan: seq<string>, faults: seq<Fault>, applied: nat, i: nat): nat
    requires i <= |plan|
    decreases |plan| - i
  {
    if i == |plan| || Blocks(faults, applied, i) then i else Stop(plan, faults, applied, i + 1)
  }

  /**
   What one run does, exactly: it applies the versions behind those already applied up to the first file whose fault
   ends it, and returns nil if and only if there is no such file.
   */
  lemma {:induction false} RunGoesToTheFirstFault(plan: seq<string>, db: Schema, faults: seq<Fault>, i: nat)
    requires NoRepeats(plan) && InStep(plan, db) && i <= |plan| && i <= |db.applied|
    ensures var (db2, ok) := RunFrom(plan, db, faults, i);
            var stop := Stop(plan, faults, |db.applied|, i);
            && stop <= |plan| && (ok <==> stop == |plan|)
            && db2.applied == plan[..if stop < |db.applied| then |db.applied| else stop]
    decreases |plan| - i
  {
    if i < |plan| {
      if i < |db.applied| {
        assert db.applied[i] == plan[i];
        RunGoesToTheFirstFault(plan, db, faults, i + 1);
      } else {
        assert plan[i] !in plan[..i];
        assert db.applied + [plan[i]] == plan[..i + 1];
        if FaultAt(faults, i) == NoFault {
          RunGoesToTheFirstFault(plan, Schema(db.applied + [plan[i]], db.effects + [plan[i]]), faults, i + 1);
          SameStop(plan, faults, i, i + 1);
          StopIsFirst(plan, faults, i, i + 1);
        }
      }
    }
  }

  lemma {:induction false} SameStop(plan: seq<string>, faults: seq<Fault>, applied: nat, i: nat)
    requires applied < i <= |plan|
    ensures Stop(plan, faults, applied, i) == Stop(plan, faults, applied + 1, i)
    decreases |plan| - i
  {
    if i < |plan| && !Blocks(faults, applied, i) {
      SameStop(plan, faults, applied, i + 1);
    }
  }

  /** The run stops at the first file that blocks it and at no earlier one. */
  lemma {:induction false} StopIsFirst(plan: seq<string>, faults: seq<Fault>, applied: nat, i: nat)
    requires i <= |plan|
    ensures var stop := Stop(plan, faults, applied, i);
            && i <= stop <= |plan| && (stop < |plan| ==> Blocks(faults, applied, stop))
            && forall j :: i <= j < stop ==> !Blocks(faults, applied, j)
    decreases |plan| - i
  {
    if i < |plan| && !Blocks(faults, applied, i) {
      StopIsFirst(plan, faults, applied, i + 1);
    }
  }

  /**
   After any runs on a directory, one that returns nil leaves exactly the wanted files applied, each once, in
   ascending order of their names.
   */
  lemma {:induction false} NilMeansAllFilesApplied(entries: seq<DirEntry>, runs: seq<seq<Fault>>, last: seq<Fault>)
    requires DistinctNames(entries) && RunFrom(Plan(entries), RunAll(Plan(entries), runs), last, 0).1
    ensures var db := RunFrom(Plan(entries), RunAll(Plan(entries), runs), last, 0).0;
            && db.effects == db.applied && NoRepeats(db.applied)
            && (forall e | e in entries && !e.isDir && HasSqlSuffix(e.name) :: e.name[..|e.name| - 4] in db.applied)
            && (forall i, j :: 0 <= i < j < |db.applied| ==> Less(db.applied[i] + ".sql", db.applied[j] + ".sql"))
            && (forall v | v in db.applied :: DirEntry(v + ".sql", false) in entries)
  {
    PlanIsSound(entries);
    PlanIsTheSortedFiles(entries);
    MigrationsApplyOnceInOrder(Plan(entries), runs, last);
    forall e | e in entries && !e.isDir && HasSqlSuffix(e.name)
      ensures e.name[..|e.name| - 4] in Plan(entries)
    {
      WantedIsPlanned(entries, e);
    }
    forall v | v in Plan(entries)
      ensures DirEntry(v + ".sql", false) in entries
    {
      PlannedIsWanted(entries, v);
    }
  }

  lemma {:induction false} WantedIsPlanned(entries: seq<DirEntry>, e: DirEntry)
    requires DistinctNames(entries) && e in entries && !e.isDir && HasSqlSuffix(e.name)
    ensures e.name[..|e.name| - 4] in Plan(entries)
  {
    var names := Sort(WantedNames(entries));
    PlanIsSound(entries);
    PlanIsTheSortedFiles(entries);
    var k :| 0 <= k < |entries| && entries[k] == e;
    WantedHas(entries, e.name);
    assert e.name in multiset(names);
    var i :| 0 <= i < |names| && names[i] == e.name;
    assert (Plan(entries)[i] + ".sql")[..|e.name| - 4] == Plan(entries)[i];
  }

  lemma {:induction false} PlannedIsWanted(entries: seq<DirEntry>, v: string)
    requires DistinctNames(entries) && v in Plan(entries)
    ensures DirEntry(v + ".sql", false) in entries
  {
    var names := Sort(WantedNames(entries));
    PlanIsSound(entries);
    PlanIsTheSortedFiles(entries);
    var i :| 0 <= i < |names| && Plan(entries)[i] == v;
    assert names[i] in multiset(names);
    WantedHas(entries, names[i]);
    var k :| 0 <= k < |entries| && Wanted(entries[k]) && entries[k].name == names[i];
    assert entries[k] == DirEntry(v + ".sql", false);
  }

  // ---------- the runner as code ----------

  class Migrator {
    var applied: seq<string>
    var effects: seq<string>

    constructor ()
      ensures applied == [] && effects == []
    {
      applied, effects := [], [];
    }

    ghost function View(): Schema
      reads this
    {
      Schema(applied, effects)
    }

    /** Collects and sorts the file names. */
    method CollectFiles(entries: seq<DirEntry>) returns (filenames: seq<string>)
      ensures filenames == Sort(WantedNames(entries))
    {
      filenames := [];
      for i := 0 to |entries|
        invariant filenames == WantedNames(entries[..i])
      {
        assert entries[..i + 1][..i] == entries[..i];
        if !entries[i].isDir && HasSqlSuffix(entries[i].name) {
          filenames := filenames + [entries[i].name];
        }
      }
      assert entries[..|entries|] == entries;
      filenames := Sort(filenames);
    }

    /** One transaction: script and tracking row, or neither. */
    method ApplyOne(version: string, fault: Fault) returns (ok: bool)
      requires fault != CheckFails
      modifies this
      ensures ok <==> fault == NoFault
      ensures View() == if ok then Schema(old(applied) + [version], old(effects) + [version]) else old(View())
    {
      if fault == ReadFails || fault == BeginFails {
        return false;
      }
      var txApplied, txEffects := applied, effects;
      if fault == ExecFails {
        return false;
      }
      txEffects := txEffects + [version];
      if fault == RecordFails {
        return false;
      }
      txApplied := txApplied + [version];
      if fault == CommitFails {
        return false;
      }
      applied, effects := txApplied, txEffects;
      return true;
    }

    method Migrate(entries: seq<DirEntry>, faults: seq<Fault>) returns (ok: bool)
      modifies this
      ensures (View(), ok) == RunFrom(Plan(entries), old(View()), faults, 0)
    {
      var filenames := CollectFiles(entries);
      ghost var plan, goal := Plan(entries), RunFrom(Plan(entries), View(), faults, 0);
      for i := 0 to |filenames|
        invariant RunFrom(plan, View(), faults, i) == goal
      {
        var version := Version(filenames[i]);
        assert version == plan[i];
        if FaultAt(faults, i) == CheckFails {
          return false;
        }
        if version in applied {
          continue;
        }
        var done := ApplyOne(version, FaultAt(faults, i));
        if !done {
          return false;
        }
      }
      ok := true;
    }
  }
}
