/**
 * The `gen-db-types` command: every column of every table is given a
 * TypeScript type (a per-table override first, then the declared SQLite
 * type), each table becomes an `export type Db…Table = { … };` block,
 * the enum imports the overrides need are grouped per module path, and
 * the text of the generated `types.ts` is assembled.
 */
module GenDbTypes {
  import opened Wrappers
  import opened Strings
  import Seqs

  /** `TypeDef`: a TypeScript type, and the module it is imported from when it is not built in. */
  datatype TypeDef = TypeDef(ty: string, namedImportPath: Option<string>)

  /** `Required<TypeDef>`: a type the generated file imports, and its module. */
  datatype Import = Import(path: string, ty: string)

  /** One row of `pragma table_info`: the column's name, its declared type and `notnull`. */
  datatype Column = Column(name: string, declared: string, notnull: bool)

  /** A table named by a `create table` statement of the schema, with its columns. */
  datatype Table = Table(name: string, columns: seq<Column>)

  /** One entry of the record the imports are reduced to: a module path and the types imported from it. */
  datatype Group = Group(path: string, types: seq<string>)

  /** `sqliteToTsType[normalized]`: the record's entry for a normalised declared type, if it has one. */
  function SqliteToTsType(normalized: string): Option<TypeDef>
  {
    if normalized == "INT" || normalized == "INTEGER" || normalized == "REAL" then Some(TypeDef("number", None))
    else if normalized == "TEXT" then Some(TypeDef("string", None))
    else if normalized == "BLOB" then Some(TypeDef("Uint8Array", None))
    else if normalized == "ANY" then Some(TypeDef("any", None))
    else None
  }

  const ProviderEnumPath: string := "#src/common/database/enums/release-source-provider.ts"
  const ReleaseTypeEnumPath: string := "#src/common/database/enums/release-type.ts"

  /** `tableOverrides[table][column]`: the override of the enum-typed and `raw` columns of the release tables, if any. */
  function TableOverride(table: string, column: string): Option<TypeDef>
  {
    if table == "release_sources" then
      if column == "provider" then Some(TypeDef("ReleaseSourceProvider", Some(ProviderEnumPath)))
      else if column == "raw" then Some(TypeDef("string", None))
      else None
    else if table == "releases" then
      if column == "provider" then Some(TypeDef("ReleaseSourceProvider", Some(ProviderEnumPath)))
      else if column == "type" then Some(TypeDef("ReleaseType", Some(ReleaseTypeEnumPath)))
      else if column == "raw" then Some(TypeDef("string", None))
      else None
    else None
  }

  // ---------------------------------------------------------------------
  // one column

  /** `type.trim().toUpperCase()`. */
  function Normalize(declared: string): string
  {
    ToUpper(Trim(declared))
  }

  predicate Overridden(table: string, column: string)
  {
    TableOverride(table, column).Some?
  }

  /** `mapSqliteTypeToTs(table, column, type)`; an unknown type throws "is not mappable". */
  function MapSqliteTypeToTs(table: string, column: string, declared: string): (r: Result<TypeDef>)
    ensures Overridden(table, column) ==> r.Ok?
    ensures r.Err? ==> r == Err(NotMappable(declared))
  {
    if Overridden(table, column) then Ok(TableOverride(table, column).value)
    else if SqliteToTsType(Normalize(declared)).Some? then Ok(SqliteToTsType(Normalize(declared)).value)
    else Err(NotMappable(declared))
  }

  /**
   * The overridden columns get their override whatever type they declare:
   * the provider columns the `ReleaseSourceProvider` enum, the release type
   * column the `ReleaseType` enum, and `raw` a plain string.
   */
  lemma OverrideWins(table: string, column: string, declared: string)
    requires Overridden(table, column)
    ensures var r := MapSqliteTypeToTs(table, column, declared);
      && (column == "provider" ==> r == Ok(TypeDef("ReleaseSourceProvider", Some(ProviderEnumPath))))
      && (column == "type" ==> table == "releases" && r == Ok(TypeDef("ReleaseType", Some(ReleaseTypeEnumPath))))
      && (column == "raw" ==> r == Ok(TypeDef("string", None)))
      && (column == "provider" || column == "type" || column == "raw")
  {
  }

  /**
   * Without an override the normalised declared type decides: INT,
   * INTEGER and REAL are numbers, TEXT a string, BLOB a `Uint8Array`, ANY
   * `any`, nothing needs an import, and every other type is refused.
   */
  lemma MappedTypes(table: string, column: string, declared: string)
    requires !Overridden(table, column)
    ensures var r := MapSqliteTypeToTs(table, column, declared);
      var n := Normalize(declared);
      && (r.Ok? <==> n == "INT" || n == "INTEGER" || n == "REAL" || n == "TEXT" || n == "BLOB" || n == "ANY")
      && (r.Ok? ==> r.value.namedImportPath.None?)
      && (r == Ok(TypeDef("number", None)) <==> n == "INT" || n == "INTEGER" || n == "REAL")
      && (r == Ok(TypeDef("string", None)) <==> n == "TEXT")
      && (r == Ok(TypeDef("Uint8Array", None)) <==> n == "BLOB")
      && (r == Ok(TypeDef("any", None)) <==> n == "ANY")
  {
  }

  /** Only the enum overrides need an import, from the enum's own module. */
  lemma MappedImport(table: string, column: string, declared: string)
    requires MapSqliteTypeToTs(table, column, declared).Ok?
    requires MapSqliteTypeToTs(table, column, declared).value.namedImportPath.Some?
    ensures Overridden(table, column)
    ensures var def := MapSqliteTypeToTs(table, column, declared).value;
      def == TypeDef("ReleaseSourceProvider", Some(ProviderEnumPath)) || def == TypeDef("ReleaseType", Some(ReleaseTypeEnumPath))
  {
    if !Overridden(table, column) {
      MappedTypes(table, column, declared);
      assert false;
    }
  }

  lemma UpperKeepsNonBlank(c: char)
    requires !IsWhitespace(c)
    ensures !IsWhitespace(UpperChar(c))
  {
  }

  /** Normalising twice is normalising once. */
  lemma NormalizeIdempotent(declared: string)
    ensures Normalize(Normalize(declared)) == Normalize(declared)
  {
    var t := Trim(declared);
    var u := ToUpper(t);
    if |u| > 0 {
      UpperKeepsNonBlank(t[0]);
      UpperKeepsNonBlank(t[|t| - 1]);
    }
    TrimKeeps(u);
    assert ToUpper(u) == u;
  }

  /**
   * Letter case and surrounding whitespace of the declared type do not
   * matter: a type maps as its normalised spelling does.
   */
  lemma SpellingInsensitive(table: string, column: string, declared: string)
    ensures MapSqliteTypeToTs(table, column, Normalize(declared)).Ok? == MapSqliteTypeToTs(table, column, declared).Ok?
    ensures MapSqliteTypeToTs(table, column, declared).Ok? ==>
      MapSqliteTypeToTs(table, column, Normalize(declared)).value == MapSqliteTypeToTs(table, column, declared).value
  {
    NormalizeIdempotent(declared);
  }

  /** The line of one column: its name, `?` exactly when it may be null, then its type. */
  function ColumnLine(c: Column, def: TypeDef): string
  {
    "  " + c.name + (if c.notnull then "" else "?") + ": " + def.ty + ";"
  }

  /** A name that reads back unambiguously from its line: no `:`, and no trailing `?`. */
  predicate PlainName(name: string)
  {
    ':' !in name && (|name| == 0 || name[|name| - 1] != '?')
  }

  /**
   * Reads a column line back into name, `notnull` and type: the name runs
   * to the first `:`, and a `?` just before it marks a nullable column.
   */
  function ReadColumnLine(line: string): Option<(string, bool, string)>
  {
    if |line| < 3 || line[..2] != "  " || line[|line| - 1] != ';' then None
    else
      var body := line[2..|line| - 1];
      var k := Seqs.FindFirst(body, (ch: char) => ch == ':');
      if k.None? || k.value + 1 >= |body| || body[k.value + 1] != ' ' then None
      else
        var head := body[..k.value];
        var ty := body[k.value + 2..];
        if |head| > 0 && head[|head| - 1] == '?' then Some((head[..|head| - 1], false, ty))
        else Some((head, true, ty))
  }

  /** A line `  <head>: <ty>;` reads back up to the first `:`, which is the one after `head`. */
  lemma ReadLineParts(head: string, ty: string)
    requires ':' !in head
    ensures ReadColumnLine("  " + head + ": " + ty + ";") ==
      if |head| > 0 && head[|head| - 1] == '?' then Some((head[..|head| - 1], false, ty)) else Some((head, true, ty))
  {
    var line := "  " + head + ": " + ty + ";";
    var body := head + ": " + ty;
    assert line[..2] == "  " && line[|line| - 1] == ';';
    assert line[2..|line| - 1] == body;
    assert body[|head|] == ':' && body[|head| + 1] == ' ';
    assert forall j :: 0 <= j < |head| ==> body[j] == head[j];
    var k := Seqs.FindFirst(body, (ch: char) => ch == ':');
    assert k == Some(|head|);
    assert body[..|head|] == head;
    assert body[|head| + 2..] == ty;
  }

  /** A column line reads back as the column's name, nullability and type. */
  lemma ColumnLineRoundTrip(c: Column, def: TypeDef)
    requires PlainName(c.name)
    ensures ReadColumnLine(ColumnLine(c, def)) == Some((c.name, c.notnull, def.ty))
  {
    var head := c.name + (if c.notnull then "" else "?");
    assert ColumnLine(c, def) == "  " + head + ": " + def.ty + ";";
    assert ':' !in head by {
      if !c.notnull {
        assert forall j :: 0 <= j < |c.name| ==> head[j] == c.name[j];
        assert head[|c.name|] == '?';
      }
    }
    ReadLineParts(head, def.ty);
    if c.notnull {
      assert head == c.name;
    } else {
      assert head[|head| - 1] == '?';
      assert head[..|head| - 1] == c.name;
    }
  }

  // ---------------------------------------------------------------------
  // the table loop
  //
  // The loop's outcome is defined for any column mapping `typeOf`; the
  // command runs it with `MapSqliteTypeToTs`.

  /** The signature of `mapSqliteTypeToTs`: table, column and declared type to a type or an error. */
  type TypeOf = (string, string, string) -> Result<TypeDef>

  /** The imports a column's type adds: its own, when it names a module. */
  function ImportOf(def: TypeDef): seq<Import>
  {
    if def.namedImportPath.Some? then [Import(def.namedImportPath.value, def.ty)] else []
  }

  /** The first line of a table's block; `pascal` is `toPascalCase`. */
  function Header(table: string, pascal: string -> string): string
  {
    "export type " + pascal("db_" + table + "_table") + " = {"
  }

  /** `tmpType.join("\n")`: the header, the column lines and the closing brace. */
  function Block(header: string, lines: seq<string>): string
  {
    Join([header] + lines + ["};"], '\n')
  }

  predicate ColumnMaps(typeOf: TypeOf, table: string, c: Column)
  {
    typeOf(table, c.name, c.declared).Ok?
  }

  /**
   * What the column loop of one table leaves after `cols`: the imports it
   * pushed and the column lines, or the error of the first column that
   * does not map.
   */
  function ColumnsOut(typeOf: TypeOf, table: string, cols: seq<Column>): Result<(seq<Import>, seq<string>)>
  {
    if |cols| == 0 then Ok(([], []))
    else
      var prev := ColumnsOut(typeOf, table, cols[..|cols| - 1]);
      var c := cols[|cols| - 1];
      var def := typeOf(table, c.name, c.declared);
      if prev.Err? then prev
      else if def.Err? then Err(def.error)
      else Ok((prev.value.0 + ImportOf(def.value), prev.value.1 + [ColumnLine(c, def.value)]))
  }

  /** What the table loop leaves after `tables`: all imports pushed and one block per table, or the first error. */
  function TablesOut(typeOf: TypeOf, tables: seq<Table>, pascal: string -> string): Result<(seq<Import>, seq<string>)>
  {
    if |tables| == 0 then Ok(([], []))
    else
      var prev := TablesOut(typeOf, tables[..|tables| - 1], pascal);
      var t := tables[|tables| - 1];
      var cols := ColumnsOut(typeOf, t.name, t.columns);
      if prev.Err? then prev
      else if cols.Err? then Err(cols.error)
      else Ok((prev.value.0 + cols.value.0, prev.value.1 + [Block(Header(t.name, pascal), cols.value.1)]))
  }

  /** Once a column fails, the rest of the columns change nothing: the first error stands. */
  lemma {:induction false} ColumnsErrSticks(typeOf: TypeOf, table: string, cols: seq<Column>, k: nat)
    requires k <= |cols| && ColumnsOut(typeOf, table, cols[..k]).Err?
    ensures ColumnsOut(typeOf, table, cols) == ColumnsOut(typeOf, table, cols[..k])
    decreases |cols| - k
  {
    if k < |cols| {
      assert cols[..k + 1][..k] == cols[..k];
      ColumnsErrSticks(typeOf, table, cols, k + 1);
    } else {
      assert cols[..k] == cols;
    }
  }

  /** Once a table fails, the rest of the tables change nothing. */
  lemma {:induction false} TablesErrSticks(typeOf: TypeOf, tables: seq<Table>, pascal: string -> string, k: nat)
    requires k <= |tables| && TablesOut(typeOf, tables[..k], pascal).Err?
    ensures TablesOut(typeOf, tables, pascal) == TablesOut(typeOf, tables[..k], pascal)
    decreases |tables| - k
  {
    if k < |tables| {
      assert tables[..k + 1][..k] == tables[..k];
      TablesErrSticks(typeOf, tables, pascal, k + 1);
    } else {
      assert tables[..k] == tables;
    }
  }

  /** The column loop succeeds exactly when every column maps. */
  lemma {:induction false} ColumnsOutOk(typeOf: TypeOf, table: string, cols: seq<Column>)
    ensures ColumnsOut(typeOf, table, cols).Ok? <==> forall j :: 0 <= j < |cols| ==> ColumnMaps(typeOf, table, cols[j])
  {
    if |cols| > 0 {
      var init := cols[..|cols| - 1];
      var c := cols[|cols| - 1];
      ColumnsOutOk(typeOf, table, init);
      if ColumnsOut(typeOf, table, cols).Ok? {
        assert ColumnsOut(typeOf, table, init).Ok? && ColumnMaps(typeOf, table, c);
        forall j | 0 <= j < |cols|
          ensures ColumnMaps(typeOf, table, cols[j])
        {
          if j < |init| {
            assert init[j] == cols[j];
          }
        }
      } else if !ColumnsOut(typeOf, table, init).Ok? {
        var j :| 0 <= j < |init| && !ColumnMaps(typeOf, table, init[j]);
        assert cols[j] == init[j];
      }
    }
  }

  /** A successful column loop has one line per column, in column order, made from that column's type. */
  lemma {:induction false} ColumnsOutLines(typeOf: TypeOf, table: string, cols: seq<Column>)
    requires ColumnsOut(typeOf, table, cols).Ok?
    ensures var lines := ColumnsOut(typeOf, table, cols).value.1;
      && |lines| == |cols|
      && forall j :: 0 <= j < |cols| ==>
        ColumnMaps(typeOf, table, cols[j]) && lines[j] == ColumnLine(cols[j], typeOf(table, cols[j].name, cols[j].declared).value)
  {
    if |cols| > 0 {
      var init := cols[..|cols| - 1];
      var c := cols[|cols| - 1];
      var prev := ColumnsOut(typeOf, table, init).value;
      var def := typeOf(table, c.name, c.declared).value;
      assert ColumnsOut(typeOf, table, cols).value.1 == prev.1 + [ColumnLine(c, def)];
      ColumnsOutLines(typeOf, table, init);
      assert forall j :: 0 <= j < |init| ==> init[j] == cols[j];
    }
  }

  /** Every column of the table maps. */
  predicate TableMaps(typeOf: TypeOf, t: Table)
  {
    forall j :: 0 <= j < |t.columns| ==> ColumnMaps(typeOf, t.name, t.columns[j])
  }

  /** The table loop succeeds exactly when every table's columns all map. */
  lemma {:induction false} TablesOutOkByTable(typeOf: TypeOf, tables: seq<Table>, pascal: string -> string)
    ensures TablesOut(typeOf, tables, pascal).Ok? <==> forall i :: 0 <= i < |tables| ==> TableMaps(typeOf, tables[i])
  {
    if |tables| > 0 {
      var init := tables[..|tables| - 1];
      var t := tables[|tables| - 1];
      TablesOutOkByTable(typeOf, init, pascal);
      ColumnsOutOk(typeOf, t.name, t.columns);
      assert forall i :: 0 <= i < |init| ==> init[i] == tables[i];
      assert TablesOut(typeOf, tables, pascal).Ok? <==>
        TablesOut(typeOf, init, pascal).Ok? && ColumnsOut(typeOf, t.name, t.columns).Ok?;
    }
  }

  /** The table loop succeeds exactly when every column of every table maps. */
  lemma TablesOutOk(typeOf: TypeOf, tables: seq<Table>, pascal: string -> string)
    ensures TablesOut(typeOf, tables, pascal).Ok? <==>
      forall i, j :: 0 <= i < |tables| && 0 <= j < |tables[i].columns| ==> ColumnMaps(typeOf, tables[i].name, tables[i].columns[j])
  {
    TablesOutOkByTable(typeOf, tables, pascal);
  }

  /** A successful table loop succeeded on all tables but the last, then added the last one's imports and block. */
  lemma TablesOutLast(typeOf: TypeOf, tables: seq<Table>, pascal: string -> string)
    requires |tables| > 0 && TablesOut(typeOf, tables, pascal).Ok?
    ensures var init := tables[..|tables| - 1];
      var t := tables[|tables| - 1];
      && TablesOut(typeOf, init, pascal).Ok? && ColumnsOut(typeOf, t.name, t.columns).Ok?
      && TablesOut(typeOf, tables, pascal).value.1
        == TablesOut(typeOf, init, pascal).value.1 + [Block(Header(t.name, pascal), ColumnsOut(typeOf, t.name, t.columns).value.1)]
  {
  }

  /** A successful table loop has one block per table, in table order: its header, its column lines, a closing brace. */
  lemma {:induction false} TablesOutBlocks(typeOf: TypeOf, tables: seq<Table>, pascal: string -> string)
    requires TablesOut(typeOf, tables, pascal).Ok?
    ensures var types := TablesOut(typeOf, tables, pascal).value.1;
      && |types| == |tables|
      && forall i :: 0 <= i < |tables| ==>
        ColumnsOut(typeOf, tables[i].name, tables[i].columns).Ok?
        && types[i] == Block(Header(tables[i].name, pascal), ColumnsOut(typeOf, tables[i].name, tables[i].columns).value.1)
  {
    if |tables| > 0 {
      var init := tables[..|tables| - 1];
      TablesOutLast(typeOf, tables, pascal);
      TablesOutBlocks(typeOf, init, pascal);
      assert forall i :: 0 <= i < |init| ==> init[i] == tables[i];
    }
  }

  /** When every type that names a module names one of `allowed`, so does every import the column loop pushes. */
  lemma {:induction false} ColumnsImportsWithin(typeOf: TypeOf, table: string, cols: seq<Column>, allowed: set<Import>)
    requires ColumnsOut(typeOf, table, cols).Ok?
    requires forall j :: 0 <= j < |cols| && ColumnMaps(typeOf, table, cols[j]) ==>
      forall imp :: imp in ImportOf(typeOf(table, cols[j].name, cols[j].declared).value) ==> imp in allowed
    ensures forall imp :: imp in ColumnsOut(typeOf, table, cols).value.0 ==> imp in allowed
  {
    if |cols| > 0 {
      var init := cols[..|cols| - 1];
      assert forall j :: 0 <= j < |init| ==> init[j] == cols[j];
      ColumnsImportsWithin(typeOf, table, init, allowed);
    }
  }

  /** The same for the table loop. */
  lemma {:induction false} TablesImportsWithin(typeOf: TypeOf, tables: seq<Table>, pascal: string -> string, allowed: set<Import>)
    requires TablesOut(typeOf, tables, pascal).Ok?
    requires forall i, j :: 0 <= i < |tables| && 0 <= j < |tables[i].columns| && ColumnMaps(typeOf, tables[i].name, tables[i].columns[j]) ==>
      forall imp :: imp in ImportOf(typeOf(tables[i].name, tables[i].columns[j].name, tables[i].columns[j].declared).value) ==> imp in allowed
    ensures forall imp :: imp in TablesOut(typeOf, tables, pascal).value.0 ==> imp in allowed
  {
    if |tables| > 0 {
      var init := tables[..|tables| - 1];
      var t := tables[|tables| - 1];
      assert forall i :: 0 <= i < |init| ==> init[i] == tables[i];
      TablesImportsWithin(typeOf, init, pascal, allowed);
      ColumnsImportsWithin(typeOf, t.name, t.columns, allowed);
    }
  }

  /** The two enum imports the overrides can ask for. */
  const EnumImports: set<Import> := {Import(ProviderEnumPath, "ReleaseSourceProvider"), Import(ReleaseTypeEnumPath, "ReleaseType")}

  /** Every import the command records is one of the two enums. */
  lemma TablesImportEnums(tables: seq<Table>, pascal: string -> string)
    requires TablesOut(MapSqliteTypeToTs, tables, pascal).Ok?
    ensures forall imp :: imp in TablesOut(MapSqliteTypeToTs, tables, pascal).value.0 ==> imp in EnumImports
  {
    forall t, c, d | MapSqliteTypeToTs(t, c, d).Ok?
      ensures forall imp :: imp in ImportOf(MapSqliteTypeToTs(t, c, d).value) ==> imp in EnumImports
    {
      if MapSqliteTypeToTs(t, c, d).value.namedImportPath.Some? {
        MappedImport(t, c, d);
      }
    }
    TablesImportsWithin(MapSqliteTypeToTs, tables, pascal, EnumImports);
  }

  /** A column whose type names a module has its import recorded. */
  lemma {:induction false} ColumnsImportCovered(typeOf: TypeOf, table: string, cols: seq<Column>, j: nat)
    requires ColumnsOut(typeOf, table, cols).Ok? && j < |cols|
    ensures ColumnMaps(typeOf, table, cols[j])
    ensures forall imp :: imp in ImportOf(typeOf(table, cols[j].name, cols[j].declared).value) ==>
      imp in ColumnsOut(typeOf, table, cols).value.0
  {
    var init := cols[..|cols| - 1];
    if j < |init| {
      assert init[j] == cols[j];
      ColumnsImportCovered(typeOf, table, init, j);
    }
  }

  /** A column of any table whose type names a module has its import recorded. */
  lemma {:induction false} TablesImportCovered(typeOf: TypeOf, tables: seq<Table>, pascal: string -> string, i: nat, j: nat)
    requires TablesOut(typeOf, tables, pascal).Ok? && i < |tables| && j < |tables[i].columns|
    ensures ColumnMaps(typeOf, tables[i].name, tables[i].columns[j])
    ensures var c := tables[i].columns[j];
      forall imp :: imp in ImportOf(typeOf(tables[i].name, c.name, c.declared).value) ==>
        imp in TablesOut(typeOf, tables, pascal).value.0
  {
    var init := tables[..|tables| - 1];
    if i < |init| {
      assert init[i] == tables[i];
      TablesImportCovered(typeOf, init, pascal, i, j);
    } else {
      ColumnsImportCovered(typeOf, tables[i].name, tables[i].columns, j);
    }
  }

  /**
   * The `for` over one table's columns: pushes the import of every type
   * that names a module and one line per column; a column that does not
   * map throws.
   */
  method CollectColumns(typeOf: TypeOf, table: Table) returns (r: Result<()>, imports: seq<Import>, lines: seq<string>)
    ensures r.Ok? <==> ColumnsOut(typeOf, table.name, table.columns).Ok?
    ensures r.Ok? ==> ColumnsOut(typeOf, table.name, table.columns).value == (imports, lines)
    ensures r.Err? ==> r.error == ColumnsOut(typeOf, table.name, table.columns).error
  {
    imports, lines := [], [];
    var j := 0;
    while j < |table.columns|
      invariant 0 <= j <= |table.columns|
      invariant ColumnsOut(typeOf, table.name, table.columns[..j]) == Ok((imports, lines))
    {
      var column := table.columns[j];
      assert table.columns[..j + 1][..j] == table.columns[..j];
      var typedef := typeOf(table.name, column.name, column.declared);
      ghost var prefix := table.columns[..j + 1];
      assert prefix[..j] == table.columns[..j] && prefix[j] == column;
      if typedef.Err? {
        ColumnsErrSticks(typeOf, table.name, table.columns, j + 1);
        return Err(typedef.error), imports, lines;
      }
      ghost var pushed := imports + ImportOf(typedef.value);
      if typedef.value.namedImportPath.Some? {
        imports := imports + [Import(typedef.value.namedImportPath.value, typedef.value.ty)];
      }
      assert imports == pushed;
      lines := lines + [ColumnLine(column, typedef.value)];
      assert ColumnsOut(typeOf, table.name, prefix) == Ok((imports, lines));
      j := j + 1;
    }
    assert table.columns[..j] == table.columns;
    r := Ok(());
  }

  /**
   * The `while` over the matched tables: for each, the `for` over its
   * columns, then its block; a column that does not map throws, ending
   * the command. `typeOf` is the column mapping the command uses.
   */
  method CollectTypes(typeOf: TypeOf, tables: seq<Table>, pascal: string -> string)
    returns (r: Result<()>, imports: seq<Import>, types: seq<string>)
    ensures r.Ok? <==> TablesOut(typeOf, tables, pascal).Ok?
    ensures r.Ok? ==> TablesOut(typeOf, tables, pascal).value == (imports, types)
    ensures r.Err? ==> r.error == TablesOut(typeOf, tables, pascal).error
  {
    imports, types := [], [];
    var i := 0;
    while i < |tables|
      invariant 0 <= i <= |tables|
      invariant TablesOut(typeOf, tables[..i], pascal) == Ok((imports, types))
    {
      var table := tables[i];
      assert tables[..i + 1][..i] == tables[..i];
      var cols, pushed, lines := CollectColumns(typeOf, table);
      if cols.Err? {
        TablesErrSticks(typeOf, tables, pascal, i + 1);
        return Err(cols.error), imports, types;
      }
      imports := imports + pushed;
      types := types + [Block(Header(table.name, pascal), lines)];
      i := i + 1;
    }
    assert tables[..i] == tables;
    r := Ok(());
  }

  // ---------------------------------------------------------------------
  // grouping the imports

  /** The distinct strings of `s`, each where it is first seen. */
  function Dedup(s: seq<string>): seq<string>
  {
    if |s| == 0 then []
    else
      var d := Dedup(s[..|s| - 1]);
      if s[|s| - 1] in d then d else d + [s[|s| - 1]]
  }

  /** `Dedup` keeps every string of `s` and adds none. */
  lemma {:induction false} DedupMembers(s: seq<string>)
    ensures forall x :: x in Dedup(s) <==> x in s
  {
    if |s| > 0 {
      DedupMembers(s[..|s| - 1]);
      assert s == s[..|s| - 1] + [s[|s| - 1]];
    }
  }

  /** `Dedup` lists each string once. */
  lemma {:induction false} DedupDistinct(s: seq<string>)
    ensures forall i, j :: 0 <= i < j < |Dedup(s)| ==> Dedup(s)[i] != Dedup(s)[j]
  {
    if |s| > 0 {
      DedupDistinct(s[..|s| - 1]);
    }
  }

  /** First-seen order: what the first `k` strings give is where the whole list starts. */
  lemma {:induction false} DedupPrefix(s: seq<string>, k: nat)
    requires k <= |s|
    ensures |Dedup(s[..k])| <= |Dedup(s)|
    ensures Dedup(s[..k]) == Dedup(s)[..|Dedup(s[..k])|]
    decreases |s| - k
  {
    if k == |s| {
      assert s[..k] == s;
    } else {
      DedupPrefix(s, k + 1);
      assert s[..k + 1][..k] == s[..k];
    }
  }

  lemma DedupStep(s: seq<string>, x: string)
    ensures Dedup(s + [x]) == if x in Dedup(s) then Dedup(s) else Dedup(s) + [x]
  {
    assert (s + [x])[..|s|] == s;
  }

  function PathsOf(imports: seq<Import>): (r: seq<string>)
    ensures |r| == |imports| && forall k :: 0 <= k < |imports| ==> r[k] == imports[k].path
  {
    seq(|imports|, k requires 0 <= k < |imports| => imports[k].path)
  }

  /** The types imported from `path`, in order, repeats included. */
  function TypesAt(imports: seq<Import>, path: string): seq<string>
  {
    if |imports| == 0 then []
    else
      var last := imports[|imports| - 1];
      TypesAt(imports[..|imports| - 1], path) + if last.path == path then [last.ty] else []
  }

  /** A type is among those imported from `path` exactly when it was imported from `path`. */
  lemma {:induction false} TypesAtMembers(imports: seq<Import>, path: string)
    ensures forall t :: t in TypesAt(imports, path) <==> Import(path, t) in imports
  {
    if |imports| > 0 {
      TypesAtMembers(imports[..|imports| - 1], path);
      assert imports == imports[..|imports| - 1] + [imports[|imports| - 1]];
    }
  }

  /**
   * The reduced record, defined directly: the module paths in first-seen
   * order, each with its types, each once, in first-seen order.
   */
  function Grouped(imports: seq<Import>): (g: seq<Group>)
    ensures |g| == |Dedup(PathsOf(imports))|
    ensures forall i :: 0 <= i < |g| ==>
      g[i] == Group(Dedup(PathsOf(imports))[i], Dedup(TypesAt(imports, Dedup(PathsOf(imports))[i])))
  {
    var paths := Dedup(PathsOf(imports));
    seq(|paths|, i requires 0 <= i < |paths| => Group(paths[i], Dedup(TypesAt(imports, paths[i]))))
  }

  lemma PathOfImport(imports: seq<Import>, imp: Import)
    requires imp in imports
    ensures imp.path in PathsOf(imports)
  {
    var k :| 0 <= k < |imports| && imports[k] == imp;
    assert PathsOf(imports)[k] == imp.path;
  }

  /**
   * What the grouping promises: each module path has one entry, an entry
   * lists each of its types once, and a type is listed under a path
   * exactly when it was imported from that path.
   */
  lemma GroupedMembers(imports: seq<Import>, i: nat, t: string)
    requires i < |Grouped(imports)|
    ensures forall j :: 0 <= j < |Grouped(imports)| && j != i ==> Grouped(imports)[j].path != Grouped(imports)[i].path
    ensures forall a, b :: 0 <= a < b < |Grouped(imports)[i].types| ==> Grouped(imports)[i].types[a] != Grouped(imports)[i].types[b]
    ensures t in Grouped(imports)[i].types <==> Import(Grouped(imports)[i].path, t) in imports
  {
    var paths := Dedup(PathsOf(imports));
    DedupDistinct(PathsOf(imports));
    DedupDistinct(TypesAt(imports, paths[i]));
    DedupMembers(TypesAt(imports, paths[i]));
    TypesAtMembers(imports, paths[i]);
  }

  /** Every imported module has its entry. */
  lemma GroupedCovers(imports: seq<Import>, imp: Import) returns (i: nat)
    requires imp in imports
    ensures i < |Grouped(imports)| && Grouped(imports)[i].path == imp.path && imp.ty in Grouped(imports)[i].types
  {
    PathOfImport(imports, imp);
    var paths := Dedup(PathsOf(imports));
    DedupMembers(PathsOf(imports));
    i :| 0 <= i < |paths| && paths[i] == imp.path;
    DedupMembers(TypesAt(imports, imp.path));
    TypesAtMembers(imports, imp.path);
  }

  /** One more import extends the first-seen paths only when its path is new. */
  lemma PathsStep(prefix: seq<Import>, curr: Import)
    ensures Dedup(PathsOf(prefix + [curr]))
      == if curr.path in Dedup(PathsOf(prefix)) then Dedup(PathsOf(prefix)) else Dedup(PathsOf(prefix)) + [curr.path]
  {
    assert PathsOf(prefix + [curr]) == PathsOf(prefix) + [curr.path];
    DedupStep(PathsOf(prefix), curr.path);
  }

  /** One more import extends the types listed for its own path, when the type is new there, and no other list. */
  lemma TypesStep(prefix: seq<Import>, curr: Import, path: string)
    ensures Dedup(TypesAt(prefix + [curr], path))
      == if curr.path == path && curr.ty !in Dedup(TypesAt(prefix, path))
         then Dedup(TypesAt(prefix, path)) + [curr.ty] else Dedup(TypesAt(prefix, path))
  {
    assert (prefix + [curr])[..|prefix|] == prefix;
    if curr.path == path {
      DedupStep(TypesAt(prefix, path), curr.ty);
    } else {
      assert TypesAt(prefix + [curr], path) == TypesAt(prefix, path);
    }
  }

  /** A path not seen yet has no types listed. */
  lemma NoTypesYet(prefix: seq<Import>, path: string)
    requires path !in Dedup(PathsOf(prefix))
    ensures Dedup(TypesAt(prefix, path)) == []
  {
    if TypesAt(prefix, path) != [] {
      var t := TypesAt(prefix, path)[0];
      TypesAtMembers(prefix, path);
      PathOfImport(prefix, Import(path, t));
      DedupMembers(PathsOf(prefix));
      assert false;
    }
  }

  /** The record the `reduce` builds from `imports`: each path seen, with its types once each. */
  ghost function Record(imports: seq<Import>): map<string, seq<string>>
  {
    map p | p in Dedup(PathsOf(imports)) :: Dedup(TypesAt(imports, p))
  }

  /** The paths of the record after one more import: those before, and the import's own. */
  lemma RecordStepKeys(prefix: seq<Import>, curr: Import)
    ensures forall p :: p in Record(prefix + [curr]) <==> p in Record(prefix) || p == curr.path
  {
    PathsStep(prefix, curr);
  }

  /** The types of one path after one more import. */
  lemma RecordStepAt(prefix: seq<Import>, curr: Import, p: string)
    requires p in Record(prefix + [curr])
    ensures p in Record(prefix) ==> (Record(prefix + [curr])[p] ==
      if curr.path == p && curr.ty !in Record(prefix)[p] then Record(prefix)[p] + [curr.ty] else Record(prefix)[p])
    ensures p !in Record(prefix) ==> p == curr.path && Record(prefix + [curr])[p] == [curr.ty]
  {
    RecordStepKeys(prefix, curr);
    TypesStep(prefix, curr, p);
    if p !in Record(prefix) {
      NoTypesYet(prefix, p);
    }
  }

  /** The `reduce` callback on a record: a new path gets `[ty]`, a known one gets `ty` appended unless it is listed. */
  function AddImport(acc: map<string, seq<string>>, curr: Import): map<string, seq<string>>
  {
    if curr.path !in acc then acc[curr.path := [curr.ty]]
    else if curr.ty !in acc[curr.path] then acc[curr.path := acc[curr.path] + [curr.ty]]
    else acc
  }

  /** A record that agrees with `AddImport` path by path is `AddImport`'s result. */
  lemma AddImportExt(next: map<string, seq<string>>, acc: map<string, seq<string>>, curr: Import)
    requires forall p :: p in next <==> p in acc || p == curr.path
    requires forall p :: p in next && p in acc ==> (next[p] ==
      if curr.path == p && curr.ty !in acc[p] then acc[p] + [curr.ty] else acc[p])
    requires forall p :: p in next && p !in acc ==> next[p] == [curr.ty]
    ensures next == AddImport(acc, curr)
  {
  }

  /** One step of the `reduce`, on the record as a whole. */
  lemma RecordStep(prefix: seq<Import>, curr: Import)
    ensures Record(prefix + [curr]) == AddImport(Record(prefix), curr)
  {
    RecordStepKeys(prefix, curr);
    forall p | p in Record(prefix + [curr])
      ensures p in Record(prefix) ==> (Record(prefix + [curr])[p] ==
        if curr.path == p && curr.ty !in Record(prefix)[p] then Record(prefix)[p] + [curr.ty] else Record(prefix)[p])
      ensures p !in Record(prefix) ==> Record(prefix + [curr])[p] == [curr.ty]
    {
      RecordStepAt(prefix, curr, p);
    }
    AddImportExt(Record(prefix + [curr]), Record(prefix), curr);
  }

  /**
   * The `reduce` of the imports into a record of path to types: a new path
   * gets the type as its list, a known path gets the type appended when it
   * is not listed yet; then `Object.entries`, in insertion order.
   */
  method GroupImports(imports: seq<Import>) returns (groups: seq<Group>)
    ensures groups == Grouped(imports)
  {
    var order: seq<string> := [];
    var acc: map<string, seq<string>> := map[];
    var i := 0;
    while i < |imports|
      invariant 0 <= i <= |imports|
      invariant order == Dedup(PathsOf(imports[..i]))
      invariant acc == Record(imports[..i])
    {
      var curr := imports[i];
      assert imports[..i + 1] == imports[..i] + [curr];
      PathsStep(imports[..i], curr);
      RecordStep(imports[..i], curr);
      if curr.path !in acc {
        acc := acc[curr.path := [curr.ty]];
        order := order + [curr.path];
      } else if curr.ty !in acc[curr.path] {
        acc := acc[curr.path := acc[curr.path] + [curr.ty]];
      }
      i := i + 1;
    }
    assert imports[..i] == imports;
    groups := seq(|order|, k requires 0 <= k < |order| => Group(order[k], acc[order[k]]));
    assert forall k :: 0 <= k < |groups| ==> groups[k] == Grouped(imports)[k];
  }

  // ---------------------------------------------------------------------
  // the generated file

  /** `import { A,B } from "path";`. */
  function ImportLine(g: Group): string
  {
    "import { " + Join(g.types, ',') + " } from \"" + g.path + "\";"
  }

  function ImportLines(groups: seq<Group>): (r: seq<string>)
    ensures |r| == |groups| && forall i :: 0 <= i < |groups| ==> r[i] == ImportLine(groups[i])
  {
    seq(|groups|, i requires 0 <= i < |groups| => ImportLine(groups[i]))
  }

  const GeneratedHeader: string := "/* GENERATED FILE CONTENT DO NOT EDIT */\n\n"

  /** The text written to `types.ts`. */
  function FileText(groups: seq<Group>, types: seq<string>): string
  {
    GeneratedHeader + JoinWith(ImportLines(groups), "\n") + "\n\n" + JoinWith(types, "\n\n") + "\n"
  }

  /** The command after the database is open and the schema is read; the text, or the first unmappable type. */
  method Generate(tables: seq<Table>, pascal: string -> string) returns (r: Result<string>)
    ensures r.Ok? <==> forall i, j :: 0 <= i < |tables| && 0 <= j < |tables[i].columns| ==>
      ColumnMaps(MapSqliteTypeToTs, tables[i].name, tables[i].columns[j])
    ensures r.Ok? ==> (TablesOut(MapSqliteTypeToTs, tables, pascal).Ok?
      && r.value == FileText(Grouped(TablesOut(MapSqliteTypeToTs, tables, pascal).value.0), TablesOut(MapSqliteTypeToTs, tables, pascal).value.1))
    ensures r.Err? ==> TablesOut(MapSqliteTypeToTs, tables, pascal).Err? && r.error == TablesOut(MapSqliteTypeToTs, tables, pascal).error
  {
    TablesOutOk(MapSqliteTypeToTs, tables, pascal);
    var collected, imports, types := CollectTypes(MapSqliteTypeToTs, tables, pascal);
    if collected.Err? {
      return Err(collected.error);
    }
    var groups := GroupImports(imports);
    r := Ok(FileText(groups, types));
  }

  /** The file opens with the generated-content banner and holds every table's block. */
  lemma FileHoldsBlocks(groups: seq<Group>, types: seq<string>, i: nat)
    requires i < |types|
    ensures IsPrefix(GeneratedHeader, FileText(groups, types))
    ensures Contains(FileText(groups, types), types[i])
  {
    var front := GeneratedHeader + JoinWith(ImportLines(groups), "\n") + "\n\n";
    JoinWithContains(types, "\n\n", i);
    ContainsWithin(front, JoinWith(types, "\n\n"), "\n", types[i]);
  }

  /** An import line lists its entry's types back, given type names without commas. */
  lemma ImportLineTypes(g: Group)
    requires |g.types| >= 1 && forall k :: 0 <= k < |g.types| ==> ',' !in g.types[k]
    ensures var line := ImportLine(g);
      && IsPrefix("import { ", line)
      && Split(line[9..9 + |Join(g.types, ',')|], ',') == g.types
  {
    var joined := Join(g.types, ',');
    var pre := "import { ";
    var post := " } from \"" + g.path + "\";";
    assert ImportLine(g) == pre + joined + post;
    assert |pre| == 9;
    assert (pre + joined + post)[|pre|..|pre| + |joined|] == joined;
    assert (pre + joined + post)[..|pre|] == pre;
    SplitJoin(g.types, ',');
  }
}
