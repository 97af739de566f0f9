/** The commands `Database.createTable` and `Database.createPartitionedTable` send to the
    server. The handle the new table is stored under is generated from a random identifier;
    here it is a parameter. */
module Databases {
  import opened Strings

  /** The `table` argument: a table, known on the server by its name, or any other value. */
  datatype TableArg = TableName(name: string) | NotTable

  /** A column argument: absent (None), a string, a list of strings, or a value of another
      type (a tuple included). */
  datatype ColumnsArg = NoColumns | OneColumn(name: string) | ColumnList(names: seq<string>) | OtherColumns

  /** The `keepDuplicates` argument: absent, a string, or a value of another type. */
  datatype KeepArg = NoKeep | KeepText(text: string) | OtherKeep

  // ---------------------------------------------------------------------------
  // The sections of the commands
  // ---------------------------------------------------------------------------

  /** The `sortColumns` section; an argument of another type adds nothing. */
  function SortColumnsText(sort: ColumnsArg): (r: string)
    ensures sort.NoColumns? || sort.OtherColumns? ==> r == ""
    ensures sort.OneColumn? || sort.ColumnList? ==> StartsWith(r, ",sortColumns=")
  {
    match sort
    case OneColumn(c) =>
      StartsWithConcat(",sortColumns=", "`" + c);
      assert ",sortColumns=" + ("`" + c) == ",sortColumns=`" + c;
      ",sortColumns=`" + c
    case ColumnList(cs) =>
      StartsWithConcat(",sortColumns=", Backticks(cs));
      ",sortColumns=" + Backticks(cs)
    case _ => ""
  }

  /** The partition columns, each behind a backtick; another type is refused. */
  function PartitionText(part: ColumnsArg): (r: Result<string>)
    ensures r.Err? <==> !(part.OneColumn? || part.ColumnList?)
    ensures r.Err? ==> r.error == InvalidPartitionColumns
  {
    match part
    case OneColumn(c) => Ok("`" + c)
    case ColumnList(cs) => Ok(Backticks(cs))
    case _ => Err(InvalidPartitionColumns)
  }

  /** `col:'method'` */
  function CompressItem(item: (string, string)): string
  {
    item.0 + ":'" + item.1 + "'"
  }

  function CompressItems(ms: seq<(string, string)>): (r: seq<string>)
    ensures |r| == |ms| && forall i :: 0 <= i < |ms| ==> r[i] == CompressItem(ms[i])
  {
    seq(|ms|, i requires 0 <= i < |ms| => CompressItem(ms[i]))
  }

  /** The `compressMethods` section: `{col:'method',...}` in the dictionary's order, or nothing
      for an empty dictionary. */
  function CompressText(ms: seq<(string, string)>): (r: string)
    ensures ms == [] <==> r == ""
  {
    if ms == [] then "" else ",compressMethods={" + Join(",", CompressItems(ms)) + "}"
  }

  /** The `keepDuplicates` section; a value that is not a string is refused. */
  function KeepDuplicatesText(keep: KeepArg): (r: Result<string>)
    ensures r.Err? <==> keep.OtherKeep?
    ensures r.Err? ==> r.error == InvalidKeepDuplicates
    ensures keep.NoKeep? ==> r == Ok("")
  {
    match keep
    case NoKeep => Ok("")
    case KeepText(k) => Ok(",keepDuplicates=" + k)
    case OtherKeep => Err(InvalidKeepDuplicates)
  }

  // ---------------------------------------------------------------------------
  // The commands
  // ---------------------------------------------------------------------------

  /** `handle=db.createTable(T,`name[,sortColumns=...]);` */
  function CreateTableCommand(handle: string, db: string, table: TableArg, tableName: string, sort: ColumnsArg): (r: Result<string>)
    ensures r.Err? <==> table.NotTable?
    ensures r.Err? ==> r.error == NotATable
    ensures r.Ok? ==> StartsWith(r.value, handle + "=" + db + ".createTable(" + table.name + ",`" + tableName)
    ensures r.Ok? ==> EndsWith(r.value, ");")
  {
    if table.NotTable? then Err(NotATable)
    else
      var head := handle + "=" + db + ".createTable(" + table.name + ",`" + tableName;
      Framed(head, SortColumnsText(sort));
      Ok(head + SortColumnsText(sort) + ");")
  }

  /** `handle=db.createPartitionedTable(T,`name,`p...[,compressMethods=...][,sortColumns=...][,keepDuplicates=...]);`
      The table is checked first, then the partition columns, then keepDuplicates. */
  function CreatePartitionedTableCommand(handle: string, db: string, table: TableArg, tableName: string,
                                         part: ColumnsArg, compress: seq<(string, string)>, sort: ColumnsArg,
                                         keep: KeepArg): (r: Result<string>)
    ensures r.Err? <==> table.NotTable? || PartitionText(part).Err? || KeepDuplicatesText(keep).Err?
    ensures r.Err? ==> r.error == (if table.NotTable? then NotATable
                                   else if PartitionText(part).Err? then InvalidPartitionColumns
                                   else InvalidKeepDuplicates)
    ensures r.Ok? ==> StartsWith(r.value, handle + "=" + db + ".createPartitionedTable(" + table.name + ",`" + tableName + ",")
    ensures r.Ok? ==> EndsWith(r.value, ");")
  {
    if table.NotTable? then Err(NotATable)
    else match PartitionText(part)
      case Err(e) => Err(e)
      case Ok(p) =>
        match KeepDuplicatesText(keep)
        case Err(e) => Err(e)
        case Ok(k) =>
          var head := handle + "=" + db + ".createPartitionedTable(" + table.name + ",`" + tableName + ",";
          var body := p + CompressText(compress) + SortColumnsText(sort) + k;
          Framed(head, body);
          Ok(head + body + ");")
  }

  /** A command is its head, its sections and the closing `);`. */
  lemma Framed(head: string, body: string)
    ensures StartsWith(head + body + ");", head) && EndsWith(head + body + ");", ");")
  {
    StartsWithConcat(head, body + ");");
    EndsWithConcat(head + body, ");");
    assert head + (body + ");") == head + body + ");";
  }

  /** The accepted case of `createPartitionedTable`, section by section. */
  lemma PartitionedCommandOk(handle: string, db: string, table: TableArg, tableName: string,
                             part: ColumnsArg, compress: seq<(string, string)>, sort: ColumnsArg, keep: KeepArg)
    requires table.TableName? && PartitionText(part).Ok? && KeepDuplicatesText(keep).Ok?
    ensures CreatePartitionedTableCommand(handle, db, table, tableName, part, compress, sort, keep) ==
      Ok(handle + "=" + db + ".createPartitionedTable(" + table.name + ",`" + tableName + "," +
         (PartitionText(part).value + CompressText(compress) + SortColumnsText(sort) + KeepDuplicatesText(keep).value) + ");")
  { }

  /** Appending the sections one by one builds the same text as appending them together. */
  lemma SectionsAssociate(head: string, p: string, c: string, s: string, k: string)
    ensures head + p + c + s + k + ");" == head + (p + c + s + k) + ");"
  { }

  // ---------------------------------------------------------------------------
  // Properties of the sections
  // ---------------------------------------------------------------------------

  /** One sort column renders as the one-element list of it. */
  lemma SortColumnOneIsList(c: string)
    ensures SortColumnsText(OneColumn(c)) == SortColumnsText(ColumnList([c]))
  {
    BackticksOne(c);
    assert ",sortColumns=" + ("`" + c) == ",sortColumns=`" + c;
  }

  /** One partition column renders as the one-element list of it. */
  lemma PartitionOneIsList(c: string)
    ensures PartitionText(OneColumn(c)) == PartitionText(ColumnList([c]))
  {
    BackticksOne(c);
  }

  /** The sort columns can be read back from their section when no name holds a backtick. */
  lemma SortColumnsRecoverable(cs: seq<string>)
    requires forall i :: 0 <= i < |cs| ==> NoBacktick(cs[i])
    ensures var s := SortColumnsText(ColumnList(cs));
      |s| >= 13 && ParseBackticks(s[13..]) == cs
  {
    var s := SortColumnsText(ColumnList(cs));
    assert s[13..] == Backticks(cs);
    BackticksRoundTrip(cs);
  }

  /** The partition columns can be read back from their section. */
  lemma PartitionRecoverable(part: ColumnsArg)
    requires part.ColumnList? && forall i :: 0 <= i < |part.names| ==> NoBacktick(part.names[i])
    ensures PartitionText(part).Ok? && ParseBackticks(PartitionText(part).value) == part.names
  {
    BackticksRoundTrip(part.names);
  }

  // ---------------------------------------------------------------------------
  // The database object and its command-building loops
  // ---------------------------------------------------------------------------

  /** The list loop of the `sortColumns` branch: a backtick and the key, per key. */
  method AppendBackticks(head: string, cs: seq<string>) returns (s: string)
    ensures s == head + Backticks(cs)
  {
    s := head;
    for i := 0 to |cs|
      invariant s == head + Backticks(cs[..i])
    {
      assert s + "`" + cs[i] == head + Backticks(cs[..i + 1]) by {
        assert cs[..i + 1] == cs[..i] + [cs[i]];
        BackticksSnoc(cs[..i], cs[i]);
        AppendRegroup(head, Backticks(cs[..i]), "`", cs[i]);
      }
      s := s + "`" + cs[i];
    }
    assert cs[..|cs|] == cs;
  }

  /** The `sortColumns` branch: the string form, or the list loop; another type adds nothing. */
  method AppendSortColumns(runstr: string, sort: ColumnsArg) returns (s: string)
    ensures s == runstr + SortColumnsText(sort)
  {
    match sort
    case OneColumn(c) =>
      s := runstr + ",sortColumns=`" + c;
    case ColumnList(cs) =>
      s := AppendBackticks(runstr + ",sortColumns=", cs);
    case _ =>
      s := runstr;
  }

  /** The partition columns string built key by key. */
  method BuildPartition(part: ColumnsArg) returns (r: Result<string>)
    ensures r == PartitionText(part)
  {
    match part
    case OneColumn(c) =>
      r := Ok("`" + c);
    case ColumnList(cs) =>
      var p := "";
      for i := 0 to |cs|
        invariant p == Backticks(cs[..i])
      {
        BackticksSnoc(cs[..i], cs[i]);
        assert cs[..i + 1] == cs[..i] + [cs[i]];
        p := p + "`";
        p := p + cs[i];
      }
      assert cs[..|cs|] == cs;
      r := Ok(p);
    case _ =>
      r := Err(InvalidPartitionColumns);
  }

  /** The `compressMethods` branch: `col:'method',` per entry, then the last comma replaced
      by the closing brace. */
  method AppendCompress(runstr: string, ms: seq<(string, string)>) returns (s: string)
    ensures s == runstr + CompressText(ms)
  {
    s := runstr;
    if |ms| > 0 {
      s := s + ",compressMethods={";
      ghost var head := s;
      ghost var items := CompressItems(ms);
      for i := 0 to |ms|
        invariant s == head + Terminated(",", items[..i])
      {
        assert s + (ms[i].0 + ":'" + ms[i].1 + "',") == head + Terminated(",", items[..i + 1]) by {
          assert items[..i + 1][..i] == items[..i];
          assert ms[i].0 + ":'" + ms[i].1 + "'," == items[i] + ",";
          AppendRegroup(head, Terminated(",", items[..i]), items[i], ",");
        }
        s := s + (ms[i].0 + ":'" + ms[i].1 + "',");
      }
      assert DropLast(s) + "}" == runstr + CompressText(ms) by {
        assert items[..|ms|] == items;
        TerminatedJoin(",", items);
        assert s == head + Join(",", items) + ",";
        DropLastAppend(head + Join(",", items), ",");
        assert DropLast(s) == head + Join(",", items);
        AppendRegroup(runstr, ",compressMethods={", Join(",", items), "}");
      }
      s := DropLast(s) + "}";
    }
  }

  /** The `keepDuplicates` branch: appended when it is a string, refused when it is not. */
  method AppendKeepDuplicates(runstr: string, keep: KeepArg) returns (r: Result<string>)
    ensures r.Err? <==> keep.OtherKeep?
    ensures r.Err? ==> r.error == InvalidKeepDuplicates
    ensures r.Ok? ==> r.value == runstr + KeepDuplicatesText(keep).value
  {
    r := Ok(runstr);
    if keep.KeepText? {
      r := Ok(runstr + ",keepDuplicates=" + keep.text);
    } else if keep.OtherKeep? {
      r := Err(InvalidKeepDuplicates);
    }
  }

  /** `Database`: a database known on the server by its name. */
  class Database {
    const name: string

    constructor (name: string)
      ensures this.name == name
    {
      this.name := name;
    }

    /** `createTable`: the command stored under `handle`. */
    method CreateTable(handle: string, table: TableArg, tableName: string, sort: ColumnsArg) returns (r: Result<string>)
      ensures r == CreateTableCommand(handle, name, table, tableName, sort)
    {
      if table.NotTable? {
        return Err(NotATable);
      }
      var runstr := handle + "=" + name + ".createTable(" + table.name + ",`" + tableName;
      runstr := AppendSortColumns(runstr, sort);
      runstr := runstr + ");";
      r := Ok(runstr);
    }

    /** `createPartitionedTable`: the command stored under `handle`. */
    method CreatePartitionedTable(handle: string, table: TableArg, tableName: string, part: ColumnsArg,
                                  compress: seq<(string, string)>, sort: ColumnsArg, keep: KeepArg) returns (r: Result<string>)
      ensures r == CreatePartitionedTableCommand(handle, name, table, tableName, part, compress, sort, keep)
    {
      if table.NotTable? {
        return Err(NotATable);
      }
      var p := BuildPartition(part);
      if p.Err? {
        return Err(p.error);
      }
      var runstr := handle + "=" + name + ".createPartitionedTable(" + table.name + ",`" + tableName + "," + p.value;
      var compressed := AppendCompress(runstr, compress);
      var sorted := AppendSortColumns(compressed, sort);
      var kept := AppendKeepDuplicates(sorted, keep);
      if kept.Err? {
        return Err(kept.error);
      }
      runstr := kept.value + ");";
      PartitionedCommandOk(handle, name, table, tableName, part, compress, sort, keep);
      SectionsAssociate(handle + "=" + name + ".createPartitionedTable(" + table.name + ",`" + tableName + ",",
                        p.value, CompressText(compress), SortColumnsText(sort), KeepDuplicatesText(keep).value);
      r := Ok(runstr);
    }
  }
}
