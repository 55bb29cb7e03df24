/** The `storage adjust` workflow (PhabricatorStorageManagementAdjustWorkflow):
    the check that every known patch has been applied, the search for
    character-set and collation adjustments across the comparison, expected
    and actual schemata, and the dispatch of each adjustment to its ALTER
    statement.

    The schemata are inputs: the comparison schema as an ordered list of
    databases, each with an ordered list of tables and the issues found,
    and the expected and actual schemata as maps by name. The statements
    the workflow sends to the database are returned as a list. */
module StorageAdjust {
  import opened Wrappers

  datatype AdjustError =
    | NotInitialized
    | PatchesMissing
    | UnknownKind(kind: string)

  /* -------------------------------------------------------------------- */
  /* requireAllPatchesApplied.                                             */

  /** `applied` is None when the database has never been initialized. */
  function RequireAllPatchesApplied(applied: Option<seq<string>>, patchKeys: seq<string>): (r: Result<(), AdjustError>)
    ensures r.Ok? ==> applied.Some? && forall k :: k in patchKeys ==> k in applied.value
    ensures r.Err? ==> r.error == NotInitialized || r.error == PatchesMissing
  {
    match applied
    case None => Err(NotInitialized)
    case Some(keys) =>
      if exists k :: k in patchKeys && k !in keys then Err(PatchesMissing) else Ok(())
  }

  /** Adjusting is allowed exactly when the patch list exists and holds
      every known patch; applied keys no patch knows are allowed. */
  lemma PatchCheck(applied: Option<seq<string>>, patchKeys: seq<string>)
    ensures RequireAllPatchesApplied(applied, patchKeys).Ok? <==>
      applied.Some? && forall k :: k in patchKeys ==> k in applied.value
    ensures applied.None? ==> RequireAllPatchesApplied(applied, patchKeys) == Err(NotInitialized)
    ensures applied.Some? && RequireAllPatchesApplied(applied, patchKeys).Err? ==>
      RequireAllPatchesApplied(applied, patchKeys) == Err(PatchesMissing)
  {
  }

  lemma ExtraPatchesAllowed(applied: seq<string>, extra: seq<string>, patchKeys: seq<string>)
    requires RequireAllPatchesApplied(Some(applied), patchKeys).Ok?
    ensures RequireAllPatchesApplied(Some(applied + extra), patchKeys).Ok?
  {
    PatchCheck(Some(applied), patchKeys);
    PatchCheck(Some(applied + extra), patchKeys);
  }

  /* -------------------------------------------------------------------- */
  /* Schemata.                                                             */

  datatype Issue = Charset | Collation | OtherIssue(name: string)

  datatype CompTable = CompTable(name: string, issues: set<Issue>)
  datatype CompDatabase = CompDatabase(name: string, issues: set<Issue>, tables: seq<CompTable>)

  datatype TableSchema = TableSchema(collation: string)
  datatype DatabaseSchema = DatabaseSchema(charset: string, collation: string, tables: map<string, TableSchema>)

  datatype Adjustment = Adjustment(
    kind: string, database: string, table: Option<string>,
    issues: seq<Issue>, charset: Option<string>, collation: string)

  /** The database's own adjustment, when it has a charset or collation
      issue; the charset and collation wanted are the expected ones. */
  function DatabaseAdjustment(d: CompDatabase, expected: DatabaseSchema): (r: seq<Adjustment>)
    ensures |r| <= 1
    ensures |r| == 1 <==> Charset in d.issues || Collation in d.issues
    ensures |r| == 1 ==>
      r[0].kind == "database" && r[0].database == d.name && r[0].table == None &&
      r[0].charset == Some(expected.charset) && r[0].collation == expected.collation
    ensures |r| == 1 ==>
      (Charset in r[0].issues <==> Charset in d.issues) &&
      (Collation in r[0].issues <==> Collation in d.issues) &&
      (forall i :: i in r[0].issues ==> i == Charset || i == Collation) &&
      (Charset in d.issues ==> r[0].issues[0] == Charset) &&
      |r[0].issues| <= 2
  {
    var issues := (if Charset in d.issues then [Charset] else [])
      + (if Collation in d.issues then [Collation] else []);
    if issues == [] then []
    else [Adjustment("database", d.name, None, issues, Some(expected.charset), expected.collation)]
  }

  /** A table's adjustment, when it is in both schemata and has a
      collation issue; the collation wanted is the expected one. */
  function TableAdjustment(dbName: string, t: CompTable, expected: DatabaseSchema, actual: DatabaseSchema): (r: seq<Adjustment>)
    ensures |r| <= 1
    ensures |r| == 1 <==> t.name in expected.tables && t.name in actual.tables && Collation in t.issues
    ensures |r| == 1 ==>
      r[0] == Adjustment("table", dbName, Some(t.name), [Collation], None, expected.tables[t.name].collation)
  {
    if t.name !in expected.tables || t.name !in actual.tables then []
    else if Collation in t.issues then
      [Adjustment("table", dbName, Some(t.name), [Collation], None, expected.tables[t.name].collation)]
    else []
  }

  function TableAdjustments(dbName: string, tables: seq<CompTable>, expected: DatabaseSchema, actual: DatabaseSchema): seq<Adjustment> {
    if tables == [] then []
    else
      TableAdjustments(dbName, tables[..|tables| - 1], expected, actual)
        + TableAdjustment(dbName, tables[|tables| - 1], expected, actual)
  }

  /** A database missing from either schema is skipped with its tables. */
  function AdjustmentsFor(d: CompDatabase, expected: map<string, DatabaseSchema>, actual: map<string, DatabaseSchema>): seq<Adjustment> {
    if d.name !in expected || d.name !in actual then []
    else DatabaseAdjustment(d, expected[d.name]) + TableAdjustments(d.name, d.tables, expected[d.name], actual[d.name])
  }

  /** findAdjustments. */
  function Adjustments(comp: seq<CompDatabase>, expected: map<string, DatabaseSchema>, actual: map<string, DatabaseSchema>): seq<Adjustment> {
    if comp == [] then []
    else Adjustments(comp[..|comp| - 1], expected, actual) + AdjustmentsFor(comp[|comp| - 1], expected, actual)
  }

  /** An adjustment names a database that both schemata have, and a table
      adjustment a table of it that both have. */
  predicate WellFormed(a: Adjustment, expected: map<string, DatabaseSchema>, actual: map<string, DatabaseSchema>) {
    (a.kind == "database" || a.kind == "table") &&
    a.database in expected && a.database in actual &&
    (a.kind == "table" ==>
      a.table.Some? && a.table.value in expected[a.database].tables && a.table.value in actual[a.database].tables &&
      a.issues == [Collation] && a.collation == expected[a.database].tables[a.table.value].collation) &&
    (a.kind == "database" ==>
      a.charset == Some(expected[a.database].charset) && a.collation == expected[a.database].collation && a.issues != [])
  }

  lemma {:induction false} TableAdjustmentsWellFormed(d: CompDatabase, tables: seq<CompTable>, expected: map<string, DatabaseSchema>, actual: map<string, DatabaseSchema>)
    requires d.name in expected && d.name in actual
    ensures forall a :: a in TableAdjustments(d.name, tables, expected[d.name], actual[d.name]) ==>
      a.kind == "table" && WellFormed(a, expected, actual)
  {
    if tables != [] {
      TableAdjustmentsWellFormed(d, tables[..|tables| - 1], expected, actual);
    }
  }

  lemma {:induction false} AdjustmentsWellFormed(comp: seq<CompDatabase>, expected: map<string, DatabaseSchema>, actual: map<string, DatabaseSchema>)
    ensures forall a :: a in Adjustments(comp, expected, actual) ==> WellFormed(a, expected, actual)
  {
    if comp != [] {
      AdjustmentsWellFormed(comp[..|comp| - 1], expected, actual);
      var d := comp[|comp| - 1];
      if d.name in expected && d.name in actual {
        TableAdjustmentsWellFormed(d, d.tables, expected, actual);
      }
    }
  }

  /** The database adjustment, if any, comes first among a database's
      adjustments; the rest are its tables'. */
  lemma DatabaseAdjustmentFirst(d: CompDatabase, expected: map<string, DatabaseSchema>, actual: map<string, DatabaseSchema>)
    requires d.name in expected && d.name in actual
    ensures var adj := AdjustmentsFor(d, expected, actual);
      ((exists i :: 0 <= i < |adj| && adj[i].kind == "database") <==> (Charset in d.issues || Collation in d.issues)) &&
      ((Charset in d.issues || Collation in d.issues) ==> |adj| > 0 && adj[0].kind == "database") &&
      (forall i :: 0 <= i < |adj| && adj[i].kind != "table" ==> i == 0)
  {
    var adj := AdjustmentsFor(d, expected, actual);
    var head := DatabaseAdjustment(d, expected[d.name]);
    var tail := TableAdjustments(d.name, d.tables, expected[d.name], actual[d.name]);
    TableAdjustmentsWellFormed(d, d.tables, expected, actual);
    forall i | 0 <= i < |tail|
      ensures tail[i].kind == "table"
    {
      assert tail[i] in tail;
    }
    assert adj == head + tail;
    if |head| == 1 {
      assert adj[0].kind == "database";
    }
  }

  /** The outer loop of findAdjustments, over the comparison databases. */
  method FindAdjustments(comp: seq<CompDatabase>, expected: map<string, DatabaseSchema>, actual: map<string, DatabaseSchema>)
    returns (adjustments: seq<Adjustment>)
    ensures adjustments == Adjustments(comp, expected, actual)
  {
    adjustments := [];
    for k := 0 to |comp|
      invariant adjustments == Adjustments(comp[..k], expected, actual)
    {
      AdjustmentsSnoc(comp, k, expected, actual);
      var more := FindAdjustmentsFor(comp[k], expected, actual);
      adjustments := adjustments + more;
    }
    assert comp[..|comp|] == comp;
  }

  /** One pass of the outer loop: a database that either schema lacks is
      skipped; otherwise its own adjustment, then its tables'. */
  method FindAdjustmentsFor(database: CompDatabase, expected: map<string, DatabaseSchema>, actual: map<string, DatabaseSchema>)
    returns (more: seq<Adjustment>)
    ensures more == AdjustmentsFor(database, expected, actual)
  {
    if database.name !in expected || database.name !in actual {
      return [];
    }
    var own := FindDatabaseAdjustment(database, expected[database.name]);
    var tables := FindTableAdjustments(database.name, database.tables, expected[database.name], actual[database.name]);
    more := own + tables;
  }

  /** One more comparison database adds its own adjustments at the end. */
  lemma AdjustmentsSnoc(comp: seq<CompDatabase>, k: nat, expected: map<string, DatabaseSchema>, actual: map<string, DatabaseSchema>)
    requires k < |comp|
    ensures Adjustments(comp[..k + 1], expected, actual) ==
      Adjustments(comp[..k], expected, actual) + AdjustmentsFor(comp[k], expected, actual)
  {
    assert comp[..k + 1][..k] == comp[..k];
  }

  /** The issue list of one database and its adjustment. */
  method FindDatabaseAdjustment(database: CompDatabase, expected: DatabaseSchema) returns (own: seq<Adjustment>)
    ensures own == DatabaseAdjustment(database, expected)
  {
    var issues: seq<Issue> := [];
    if Charset in database.issues {
      issues := issues + [Charset];
    }
    if Collation in database.issues {
      issues := issues + [Collation];
    }
    own := [];
    if issues != [] {
      own := [Adjustment("database", database.name, None, issues, Some(expected.charset), expected.collation)];
    }
    var spec := (if Charset in database.issues then [Charset] else [])
      + (if Collation in database.issues then [Collation] else []);
    assert issues == spec;
    assert (issues == []) == (spec == []);
  }

  /** The inner loop of findAdjustments, over one database's tables. */
  method FindTableAdjustments(dbName: string, tables: seq<CompTable>, expected: DatabaseSchema, actual: DatabaseSchema)
    returns (adjustments: seq<Adjustment>)
    ensures adjustments == TableAdjustments(dbName, tables, expected, actual)
  {
    adjustments := [];
    for j := 0 to |tables|
      invariant adjustments == TableAdjustments(dbName, tables[..j], expected, actual)
    {
      assert tables[..j + 1][..j] == tables[..j];
      var table := tables[j];
      if table.name !in expected.tables || table.name !in actual.tables {
        continue;
      }
      if Collation in table.issues {
        adjustments := adjustments + [Adjustment("table", dbName, Some(table.name), [Collation],
          None, expected.tables[table.name].collation)];
      }
    }
    assert tables[..|tables|] == tables;
  }

  /* -------------------------------------------------------------------- */
  /* Applying adjustments.                                                 */

  datatype Statement =
    | AlterDatabase(database: string, charset: Option<string>, collation: string)
    | AlterTable(database: string, table: Option<string>, collation: string)

  /** The ALTER statement for an adjustment; no statement for a kind the
      workflow does not know. */
  function StatementFor(a: Adjustment): (r: Option<Statement>)
    ensures r.Some? <==> a.kind == "database" || a.kind == "table"
    ensures r.Some? ==> r.value.database == a.database && r.value.collation == a.collation
  {
    if a.kind == "database" then Some(AlterDatabase(a.database, a.charset, a.collation))
    else if a.kind == "table" then Some(AlterTable(a.database, a.table, a.collation))
    else None
  }

  /** The loop of adjustSchemata once the user confirms: each adjustment's
      statement in order, up to the first adjustment of an unknown kind,
      which throws after the statements before it have run. */
  method ApplyAdjustments(adjustments: seq<Adjustment>) returns (executed: seq<Statement>, r: Result<(), AdjustError>)
    ensures r.Ok? <==> forall i :: 0 <= i < |adjustments| ==> StatementFor(adjustments[i]).Some?
    ensures r.Ok? ==> |executed| == |adjustments|
    ensures r.Err? ==>
      (|executed| < |adjustments| && StatementFor(adjustments[|executed|]).None? &&
       r.error == UnknownKind(adjustments[|executed|].kind))
    ensures |executed| <= |adjustments| &&
      forall i :: 0 <= i < |executed| ==> StatementFor(adjustments[i]) == Some(executed[i])
  {
    executed := [];
    for k := 0 to |adjustments|
      invariant |executed| == k
      invariant forall i :: 0 <= i < k ==> StatementFor(adjustments[i]) == Some(executed[i])
    {
      var adjust := adjustments[k];
      if adjust.kind == "database" {
        executed := executed + [AlterDatabase(adjust.database, adjust.charset, adjust.collation)];
      } else if adjust.kind == "table" {
        executed := executed + [AlterTable(adjust.database, adjust.table, adjust.collation)];
      } else {
        return executed, Err(UnknownKind(adjust.kind));
      }
    }
    r := Ok(());
  }

  /** execute: the patch check, then, if there is anything to adjust and
      the user confirms, the ALTER statements. */
  method Execute(applied: Option<seq<string>>, patchKeys: seq<string>, comp: seq<CompDatabase>,
                 expected: map<string, DatabaseSchema>, actual: map<string, DatabaseSchema>, confirmed: bool)
    returns (executed: seq<Statement>, r: Result<int, AdjustError>)
    ensures RequireAllPatchesApplied(applied, patchKeys).Err? ==>
      executed == [] && r == Err(RequireAllPatchesApplied(applied, patchKeys).error)
    ensures RequireAllPatchesApplied(applied, patchKeys).Ok? ==> r == Ok(0)
    ensures RequireAllPatchesApplied(applied, patchKeys).Ok? && confirmed ==>
      |executed| == |Adjustments(comp, expected, actual)| &&
      forall i :: 0 <= i < |executed| ==> StatementFor(Adjustments(comp, expected, actual)[i]) == Some(executed[i])
    ensures !confirmed ==> executed == []
  {
    var check := RequireAllPatchesApplied(applied, patchKeys);
    if check.Err? {
      return [], Err(check.error);
    }
    var adjustments := FindAdjustments(comp, expected, actual);
    if adjustments == [] || !confirmed {
      return [], Ok(0);
    }
    AdjustmentsWellFormed(comp, expected, actual);
    forall i | 0 <= i < |adjustments|
      ensures StatementFor(adjustments[i]).Some?
    {
      assert adjustments[i] in adjustments;
    }
    var result;
    executed, result := ApplyAdjustments(adjustments);
    assert result.Ok?;
    r := Ok(0);
  }
}
