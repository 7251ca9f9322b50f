/** `Table`: a table of the lakehouse, its name within its catalog and
    schema, the back-fill of that location into its columns, and the SQL text
    of the statements that create it, fill it with its data and read it. */
module Tables {
  import opened Wrappers
  import opened Errors
  import opened Values
  import opened Text

  /** A column of a table. Its name and type are fixed; the table
      back-fills where it lives. */
  class Column {
    const name: string
    /** `type`. */
    const dataType: string
    var tableName: Option<string>
    var catalogName: Option<string>
    var databaseName: Option<string>

    constructor (name: string, dataType: string)
      ensures this.name == name && this.dataType == dataType
      ensures tableName.None? && catalogName.None? && databaseName.None?
    {
      this.name := name;
      this.dataType := dataType;
      tableName := None;
      catalogName := None;
      databaseName := None;
    }
  }

  /** `"{name} {type}"` of a column, as the create statement lists it. */
  function ColumnDefinition(c: Column): string {
    c.name + " " + c.dataType
  }

  /** The clauses of the create statement before the table name. Passing
      `or_replace` turns `if_not_exists` off. */
  function CreateHeader(ifNotExists: bool, orReplace: bool): string {
    "CREATE  " + (if orReplace then "OR REPLACE " else "") + "TABLE "
    + (if ifNotExists && !orReplace then "IF NOT EXISTS " else "")
  }

  /** A text that holds `sub` holds each character of `sub`. */
  lemma ContainsHasChar(s: string, sub: string, k: nat) returns (j: nat)
    requires Contains(s, sub) && k < |sub|
    ensures j < |s| && s[j] == sub[k]
  {
    var i := ContainsOccurs(s, sub);
    assert s[i..i + |sub|][k] == s[i + k];
    j := i + k;
  }

  lemma HeaderWithoutReplace(ifNotExists: bool)
    ensures !Contains(CreateHeader(ifNotExists, false), "OR REPLACE ")
  {
    var h := CreateHeader(ifNotExists, false);
    assert h == "CREATE  TABLE " || h == "CREATE  TABLE IF NOT EXISTS ";
    assert forall i :: 0 <= i < |h| ==> h[i] != 'P';
    if Contains(h, "OR REPLACE ") {
      var j := ContainsHasChar(h, "OR REPLACE ", 5);
      assert false;
    }
  }

  lemma HeaderWithoutIfNotExists(ifNotExists: bool, orReplace: bool)
    requires orReplace || !ifNotExists
    ensures !Contains(CreateHeader(ifNotExists, orReplace), "IF NOT EXISTS ")
  {
    var h := CreateHeader(ifNotExists, orReplace);
    assert h == "CREATE  TABLE " || h == "CREATE  OR REPLACE TABLE ";
    assert forall i :: 0 <= i < |h| ==> h[i] != 'I';
    if Contains(h, "IF NOT EXISTS ") {
      var j := ContainsHasChar(h, "IF NOT EXISTS ", 0);
      assert false;
    }
  }

  lemma HeaderWithReplace(ifNotExists: bool)
    ensures Contains(CreateHeader(ifNotExists, true), "OR REPLACE ")
  {
    var h := CreateHeader(ifNotExists, true);
    assert h == "CREATE  OR REPLACE TABLE ";
    assert h[8..19] == "OR REPLACE ";
    OccursContains(h, "OR REPLACE ", 8);
  }

  lemma HeaderWithIfNotExists()
    ensures Contains(CreateHeader(true, false), "IF NOT EXISTS ")
  {
    var h := CreateHeader(true, false);
    assert h == "CREATE  TABLE IF NOT EXISTS ";
    assert h[14..28] == "IF NOT EXISTS ";
    OccursContains(h, "IF NOT EXISTS ", 14);
  }

  /** The header holds `OR REPLACE ` exactly when `or_replace` is passed and
      `IF NOT EXISTS ` exactly when `if_not_exists` is passed without it, so
      never both. */
  lemma CreateHeaderClauses(ifNotExists: bool, orReplace: bool)
    ensures Contains(CreateHeader(ifNotExists, orReplace), "OR REPLACE ") <==> orReplace
    ensures Contains(CreateHeader(ifNotExists, orReplace), "IF NOT EXISTS ") <==> ifNotExists && !orReplace
    ensures !(Contains(CreateHeader(ifNotExists, orReplace), "OR REPLACE ")
      && Contains(CreateHeader(ifNotExists, orReplace), "IF NOT EXISTS "))
  {
    if orReplace {
      HeaderWithReplace(ifNotExists);
      HeaderWithoutIfNotExists(ifNotExists, orReplace);
    } else {
      HeaderWithoutReplace(ifNotExists);
      if ifNotExists {
        HeaderWithIfNotExists();
      } else {
        HeaderWithoutIfNotExists(ifNotExists, orReplace);
      }
    }
  }

  /** What iterating over `data = None` raises. */
  const NoneDataError: Error := TypeError("'NoneType' object is not iterable")

  /** The fields of `Table` in declaration order, as `model_fields` lists
      them. */
  const TableFieldNames: seq<string> := ["name", "columns", "primary_key", "comment", "catalog_name",
    "database_name", "data", "event_source", "table_source", "zone", "pipeline_name"]

  class Table {
    const name: string
    const columns: seq<Column>
    const catalogName: Option<string>
    const databaseName: Option<string>
    /** `data`: rows of values, `None` by default. */
    const data: Option<seq<seq<Value>>>

    constructor (name: string, columns: seq<Column>, catalogName: Option<string>, databaseName: Option<string>, data: Option<seq<seq<Value>>>)
      ensures this.name == name && this.columns == columns
      ensures this.catalogName == catalogName && this.databaseName == databaseName && this.data == data
    {
      this.name := name;
      this.columns := columns;
      this.catalogName := catalogName;
      this.databaseName := databaseName;
      this.data := data;
    }

    /** The `assign_table_to_columns` validator: every column learns the
        table's name, catalog and database. The columns themselves, their
        names and types do not change. */
    method AssignTableToColumns()
      modifies columns
      ensures forall c :: c in columns ==>
        c.tableName == Some(name) && c.catalogName == catalogName && c.databaseName == databaseName
    {
      var i := 0;
      while i < |columns|
        invariant 0 <= i <= |columns|
        invariant forall c :: c in columns[..i] ==>
          c.tableName == Some(name) && c.catalogName == catalogName && c.databaseName == databaseName
      {
        var c := columns[i];
        c.tableName := Some(name);
        c.catalogName := catalogName;
        c.databaseName := databaseName;
        assert columns[..i + 1] == columns[..i] + [c];
        i := i + 1;
      }
      assert columns[..i] == columns;
    }

    /** `parent_full_name`: the truthy parts among catalog and database,
        joined by `.`. */
    function ParentFullName(): (r: string)
      ensures !Truthy(catalogName) && !Truthy(databaseName) ==> r == ""
      ensures Truthy(catalogName) && !Truthy(databaseName) ==> r == catalogName.value
      ensures !Truthy(catalogName) && Truthy(databaseName) ==> r == databaseName.value
      ensures Truthy(catalogName) && Truthy(databaseName) ==> r == catalogName.value + "." + databaseName.value
    {
      var afterCatalog := if Truthy(catalogName) then catalogName.value else "";
      if Truthy(databaseName) then
        (if afterCatalog == "" then databaseName.value else afterCatalog + "." + databaseName.value)
      else afterCatalog
    }

    /** The truthy parts among catalog and database. */
    function ParentParts(): (r: seq<string>) {
      (if Truthy(catalogName) then [catalogName.value] else [])
      + (if Truthy(databaseName) then [databaseName.value] else [])
    }

    /** `parent_full_name` is `".".join` of the parts that are set. */
    lemma ParentFullNameIsJoin()
      ensures ParentFullName() == Join(ParentParts(), ".")
    {
      var parts := ParentParts();
      if Truthy(catalogName) && Truthy(databaseName) {
        assert parts[..1] == [catalogName.value];
      }
    }

    /** `full_name`: the parent name, `.`, and the table name. The parent
        name is never `None`, so an empty parent still yields a leading
        `.`. */
    function FullName(): (r: string)
      ensures IsPrefix(ParentFullName(), r) && HasSuffix(r, "." + name)
      ensures |r| == |ParentFullName()| + 1 + |name|
      ensures ParentFullName() == "" ==> r[0] == '.'
    {
      ParentFullName() + "." + name
    }

    /** `schema_name`. */
    function SchemaName(): (r: Option<string>)
      ensures r == databaseName
    {
      databaseName
    }

    /** `column_names`: the names of the columns, in order. */
    function ColumnNames(): (r: seq<string>)
      ensures |r| == |columns|
      ensures forall i :: 0 <= i < |columns| ==> r[i] == columns[i].name
    {
      seq(|columns|, i requires 0 <= i < |columns| => columns[i].name)
    }

    /** The column definitions, in order. */
    function ColumnDefinitions(): (r: seq<string>)
      ensures |r| == |columns|
      ensures forall i :: 0 <= i < |columns| ==> r[i] == ColumnDefinition(columns[i])
    {
      seq(|columns|, i requires 0 <= i < |columns| => ColumnDefinition(columns[i]))
    }

    /** The text of the create statement: the header, `schema.name` with a
        `None` schema rendered as `None`, and the column definitions
        separated by `,` between parentheses. A table without columns
        cannot be created. */
    function CreateStatement(ifNotExists: bool, orReplace: bool): (r: Result<string, Error>)
      ensures r.Failure? <==> |columns| == 0
      ensures r.Failure? ==> r.error == ValueError("")
    {
      if |columns| == 0 then Failure(ValueError(""))
      else Success(CreateHeader(ifNotExists, orReplace) + Render(SchemaName()) + "." + name
        + "(" + Join(ColumnDefinitions(), ",") + ")")
    }

    /** A table with one column `c` is created by
        `<header><schema>.<name>(<c.name> <c.type>)`: no separator is left
        over. */
    lemma CreateOneColumn(ifNotExists: bool, orReplace: bool)
      requires |columns| == 1
      ensures CreateStatement(ifNotExists, orReplace) == Success(CreateHeader(ifNotExists, orReplace)
        + Render(databaseName) + "." + name + "(" + ColumnDefinition(columns[0]) + ")")
    {
      assert Join(ColumnDefinitions(), ",") == ColumnDefinition(columns[0]);
    }

    /** `create`: the statement is built by appending one `name type,` per
        column and then dropping the last character. What it returns is the
        statement that the source hands to the warehouse. */
    method Create(ifNotExists: bool, orReplace: bool) returns (r: Result<string, Error>)
      ensures r == CreateStatement(ifNotExists, orReplace)
    {
      if |columns| == 0 {
        return Failure(ValueError(""));
      }
      var notExists := ifNotExists;
      if orReplace {
        notExists := false;
      }
      var statement := "CREATE  ";
      if orReplace {
        statement := statement + "OR REPLACE ";
      }
      statement := statement + "TABLE ";
      if notExists {
        statement := statement + "IF NOT EXISTS ";
      }
      assert statement == CreateHeader(ifNotExists, orReplace);
      statement := statement + Render(SchemaName()) + "." + name;
      statement := statement + "(";
      ghost var prefix := statement;
      ghost var defs := ColumnDefinitions();
      var i := 0;
      ghost var done := "";
      while i < |columns|
        invariant 0 <= i <= |columns|
        invariant done == Terminated(defs[..i], ",")
        invariant statement == prefix + done
      {
        var def := columns[i].name + " " + columns[i].dataType + ",";
        TerminatedStep(defs, i, ",");
        assert def == defs[i] + ",";
        done := done + def;
        statement := statement + def;
        i := i + 1;
      }
      assert defs[..i] == defs;
      TerminatedIsJoin(defs, ",");
      ghost var body := prefix + Join(defs, ",");
      assert statement == body + ",";
      statement := statement[..|statement| - 1];
      assert statement == body;
      statement := statement + ")";
      r := Success(statement);
    }

    /** The header of the insert statement. */
    function InsertHeader(): string {
      "INSERT INTO " + FullName() + " VALUES\n"
    }

    /** One row of the insert statement: `"   ("`, the rendered values
        joined by `", "`, and `")"`; `render` is `value_to_statement`. */
    function RowText(row: seq<Value>, render: Value -> string): string {
      "   (" + Join(seq(|row|, i requires 0 <= i < |row| => render(row[i])), ", ") + ")"
    }

    function RowTexts(rows: seq<seq<Value>>, render: Value -> string): (r: seq<string>)
      ensures |r| == |rows|
      ensures forall i :: 0 <= i < |rows| ==> r[i] == RowText(rows[i], render)
    {
      seq(|rows|, i requires 0 <= i < |rows| => RowText(rows[i], render))
    }

    /** The text of the insert statement as built: the header and every row
        followed by `",\n"`, less the last two characters. A `None` `data`
        is not iterable. */
    function InsertStatement(render: Value -> string): (r: Result<string, Error>)
      ensures r.Failure? <==> data.None?
      ensures r.Failure? ==> r.error == NoneDataError
      ensures r.Success? ==> IsPrefix("INSERT INTO " + FullName() + " VALUE", r.value)
    {
      if data.None? then Failure(NoneDataError)
      else
        var s := InsertHeader() + Terminated(RowTexts(data.value, render), ",\n");
        var p := "INSERT INTO " + FullName() + " VALUE";
        assert InsertHeader() == p + "S\n";
        assert s[..|s| - 2][..|p|] == p;
        Success(s[..|s| - 2])
    }

    /** With rows, the insert statement is the header followed by the rows
        separated by `",\n"`, without a trailing separator. */
    lemma InsertWithRows(render: Value -> string)
      requires data.Some? && |data.value| > 0
      ensures InsertStatement(render) == Success(InsertHeader() + Join(RowTexts(data.value, render), ",\n"))
    {
      var rows := RowTexts(data.value, render);
      TerminatedIsJoin(rows, ",\n");
      assert InsertHeader() + Terminated(rows, ",\n") == (InsertHeader() + Join(rows, ",\n")) + ",\n";
    }

    /** Without rows, the slice cuts `"S\n"` off the header: the statement
        ends in `VALUE`. */
    lemma InsertWithoutRows(render: Value -> string)
      requires data == Some([])
      ensures InsertStatement(render) == Success("INSERT INTO " + FullName() + " VALUE")
    {
      var s := InsertHeader() + Terminated(RowTexts([], render), ",\n");
      assert s == ("INSERT INTO " + FullName() + " VALUE") + "S\n";
    }

    /** `insert`: the statement is built by appending each row and its
        `",\n"`, then dropping the last two characters. */
    method Insert(render: Value -> string) returns (r: Result<string, Error>)
      ensures r == InsertStatement(render)
    {
      if data.None? {
        return Failure(NoneDataError);
      }
      var rows := data.value;
      var statement := "INSERT INTO " + FullName() + " VALUES\n";
      var i := 0;
      while i < |rows|
        invariant 0 <= i <= |rows|
        invariant statement == InsertHeader() + Terminated(RowTexts(rows, render)[..i], ",\n")
      {
        assert RowTexts(rows, render)[..i + 1][..i] == RowTexts(rows, render)[..i];
        statement := statement + "   (";
        statement := statement + Join(seq(|rows[i]|, j requires 0 <= j < |rows[i]| => render(rows[i][j])), ", ");
        statement := statement + "),\n";
        i := i + 1;
      }
      assert RowTexts(rows, render)[..i] == RowTexts(rows, render);
      statement := statement[..|statement| - 2];
      r := Success(statement);
    }

    /** `select`: the whole table, limited to `limit` rows. */
    function Select(limit: int): (r: string)
      ensures IsPrefix("SELECT * from " + FullName() + " limit ", r)
      ensures r[|"SELECT * from " + FullName() + " limit "|..] == IntToString(limit)
    {
      "SELECT * from " + FullName() + " limit " + IntToString(limit)
    }

    /** `meta_table`: the table `laktory.tables` with one `string` column per
        field of `Table`, after the validator has filled in the columns. */
    static method MetaTable() returns (t: Table)
      ensures fresh(t) && t.name == "tables" && t.catalogName.None? && t.databaseName == Some("laktory") && t.data.None?
      ensures |t.columns| == |TableFieldNames|
      ensures forall i :: 0 <= i < |t.columns| ==>
        t.columns[i].name == TableFieldNames[i] && t.columns[i].dataType == "string"
        && t.columns[i].tableName == Some("tables") && t.columns[i].catalogName.None?
        && t.columns[i].databaseName == Some("laktory")
    {
      var columns: seq<Column> := [];
      var i := 0;
      while i < |TableFieldNames|
        invariant 0 <= i <= |TableFieldNames|
        invariant |columns| == i
        invariant forall j :: 0 <= j < i ==> fresh(columns[j])
        invariant forall j :: 0 <= j < i ==> columns[j].name == TableFieldNames[j] && columns[j].dataType == "string"
      {
        var c := new Column(TableFieldNames[i], "string");
        columns := columns + [c];
        i := i + 1;
      }
      t := new Table("tables", columns, None, Some("laktory"), None);
      t.AssignTableToColumns();
    }
  }
}
