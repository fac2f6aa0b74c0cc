/**
 * The `memes` table shared by the processing script and the web interface:
 * rows keyed by an auto-incremented id, with `file_path` unique.
 */
module Catalog {
  import opened Optional
  import opened Json
  import opened Text

  /** A SQLite column value as the source binds and reads it. */
  datatype Value = Null | Str(s: string) | Int(i: int)

  /** The range of a SQLite INTEGER: 64-bit two's complement. */
  const MinInteger := -0x8000_0000_0000_0000
  const MaxInteger := 0x7FFF_FFFF_FFFF_FFFF

  predicate InIntegerRange(n: int)
  {
    MinInteger <= n <= MaxInteger
  }

  /**
   * The SQLite binding of a decoded value; `None` where the driver refuses it:
   * a list, a dict, or an integer outside the 64-bit range.
   */
  function Bind(v: Json): (r: Option<Value>)
    ensures r.None? <==> v.JArray? || v.JObject? || (v.JNumber? && !InIntegerRange(v.n))
    ensures v.JNull? ==> r == Some(Null)
    ensures v.JString? ==> r == Some(Str(v.s))
    ensures v.JBool? ==> r == Some(Int(if v.b then 1 else 0))
    ensures v.JNumber? && InIntegerRange(v.n) ==> r == Some(Int(v.n))
  {
    match v
    case JNull => Some(Null)
    case JBool(b) => Some(Int(if b then 1 else 0))
    case JNumber(n) => if InIntegerRange(n) then Some(Int(n)) else None
    case JString(s) => Some(Str(s))
    case _ => None
  }

  /**
   * The exception the driver raises for a value it refuses as the statement's
   * parameter number `position`.
   */
  function BindError(v: Json, position: nat): (m: string)
    requires Bind(v).None?
    ensures v.JNumber? ==> m == "Python int too large to convert to SQLite INTEGER"
    ensures !v.JNumber? ==> StartsWith(m, "Error binding parameter " + NatToString(position))
  {
    if v.JNumber? then "Python int too large to convert to SQLite INTEGER"
    else
      var head := "Error binding parameter " + NatToString(position);
      var tail := ": type '" + TypeName(v) + "' is not supported";
      ConcatEnds(head, tail);
      head + tail
  }

  /**
   * What a column declared `TEXT` keeps of a bound value: SQLite converts an
   * integer to its decimal text, and keeps NULL and text as they are.
   */
  function TextAffinity(v: Value): (r: Value)
    ensures !r.Int?
    ensures v.Int? ==> r == Str(IntToString(v.i))
    ensures !v.Int? ==> r == v
  {
    match v
    case Int(n) => Str(IntToString(n))
    case _ => v
  }

  /** An integer kept as text in a `TEXT` column reads back, through `int()`, as the integer. */
  lemma TextAffinityReadsBack(n: int)
    ensures TextAffinity(Int(n)).Str? && ParseInt(TextAffinity(Int(n)).s) == Some(n)
  {
    ParseIntToString(n);
  }

  /** One row of `memes`; timestamps are not modelled. */
  datatype Row = Row(
    filePath: string,
    status: string,
    refContent: Value,
    template: Value,
    caption: Value,
    description: Value,
    meaning: Value,
    errorMessage: Value)

  /** `INSERT INTO memes (file_path, status) VALUES (?, 'new')`: every other column is NULL. */
  function NewRow(path: string): (r: Row)
    ensures r.filePath == path && r.status == "new"
    ensures r.refContent == r.template == r.caption == r.description == r.meaning == Null
    ensures r.errorMessage == Null
  {
    Row(path, "new", Null, Null, Null, Null, Null, Null)
  }

  /** The set of stored file paths. */
  function Paths(rows: map<nat, Row>): set<string>
  {
    set id | id in rows :: rows[id].filePath
  }

  /** The `UNIQUE` constraint on `file_path`. */
  ghost predicate UniquePaths(rows: map<nat, Row>)
  {
    forall i, j :: i in rows && j in rows && i != j ==> rows[i].filePath != rows[j].filePath
  }

  /** Inserting a row under a fresh id adds exactly its path. */
  lemma PathsInsert(rows: map<nat, Row>, id: nat, row: Row)
    requires id !in rows
    ensures Paths(rows[id := row]) == Paths(rows) + {row.filePath}
  {
    var after := rows[id := row];
    assert row.filePath == after[id].filePath;
    forall p | p in Paths(after) ensures p in Paths(rows) + {row.filePath} {
      var k :| k in after && after[k].filePath == p;
      if k != id { assert rows[k].filePath == p; }
    }
    forall p | p in Paths(rows) ensures p in Paths(after) {
      var k :| k in rows && rows[k].filePath == p;
      assert after[k].filePath == p;
    }
  }

  /** Replacing a row by one with the same path keeps the set of paths. */
  lemma PathsReplace(rows: map<nat, Row>, id: nat, row: Row)
    requires id in rows && row.filePath == rows[id].filePath
    ensures Paths(rows[id := row]) == Paths(rows)
  {
    var after := rows[id := row];
    forall p | p in Paths(rows) ensures p in Paths(after) {
      var k :| k in rows && rows[k].filePath == p;
      assert after[k].filePath == p;
    }
  }

  /** Inserting a row whose path is not stored under a fresh id keeps paths unique. */
  lemma InsertKeepsUnique(rows: map<nat, Row>, id: nat, row: Row)
    requires UniquePaths(rows) && id !in rows && row.filePath !in Paths(rows)
    ensures UniquePaths(rows[id := row])
  {
    forall k | k in rows ensures rows[k].filePath != row.filePath {
      assert rows[k].filePath in Paths(rows);
    }
  }

  /** Replacing a row by one with the same path keeps paths unique. */
  lemma ReplaceKeepsUnique(rows: map<nat, Row>, id: nat, row: Row)
    requires UniquePaths(rows) && id in rows && row.filePath == rows[id].filePath
    ensures UniquePaths(rows[id := row])
  {
  }

  class MemeTable {
    /** The rows of `memes`, by id. */
    var rows: map<nat, Row>
    /** The id `AUTOINCREMENT` hands out next: above every id ever used. */
    var nextId: nat

    ghost predicate Valid()
      reads this
    {
      && (forall id :: id in rows ==> 0 < id < nextId)
      && 0 < nextId
      && UniquePaths(rows)
    }

    /** The empty table `init_database.py` creates. */
    constructor ()
      ensures Valid() && rows == map[] && nextId == 1
    {
      rows := map[];
      nextId := 1;
    }
  }
}
