/** The database-schema section of the system prompt
    (lib/sage/database_schema_context.rb): the tables and columns the
    configured data source reports, one line each, or the schema verbatim
    when it is not a list of tables.  The data source is an input; looking
    it up is outside the model. */
module DatabaseSchemaContext {
  import opened Wrappers
  import opened Text

  /** An entry of a table's column list: a Hash with `:name` and
      `:data_type`, or anything else. */
  datatype Column = ColumnHash(name: Option<string>, dataType: Option<string>) | OtherColumn

  /** A table's `:columns`: absent or nil, a list, or a value without
      `each`, on which the loop raises. */
  datatype Columns = NoColumns | ColumnList(items: seq<Column>) | NotEnumerable

  /** An entry of the schema list: a Hash with `:schema`, `:table` and
      `:columns`, or anything else. */
  datatype TableEntry = TableHash(schema: Option<string>, table: Option<string>, columns: Columns) | OtherEntry

  /** What the data source's `schema` returns: a list of tables, or any
      other value, given by its `to_s`. */
  datatype SchemaInfo = SchemaArray(tables: seq<TableEntry>) | SchemaOther(text: string)

  /** The data source: missing, without a `schema` method, with a schema,
      or one whose lookup raises. */
  datatype DataSource = Missing | WithoutSchema | WithSchema(info: SchemaInfo) | LookupRaises

  const Header: seq<string> := [
    "\n\n## DATABASE SCHEMA\n",
    "Available tables and their columns (use these exact names in your queries):\n"
  ]

  /** String interpolation of a string or nil. */
  function Interpolate(o: Option<string>): string {
    o.GetOr("")
  }

  function TableLine(schema: Option<string>, table: Option<string>): string {
    "\n### Table: `" + schema.GetOr("public") + "." + Interpolate(table) + "`"
  }

  function ColumnLine(name: Option<string>, dataType: Option<string>): string {
    "  - `" + Interpolate(name) + "` (" + Interpolate(dataType) + ")"
  }

  /** The lines of a column list: one per Hash entry, in order. */
  function ColumnLines(cols: seq<Column>): (r: seq<string>)
    ensures |r| <= |cols|
    decreases |cols|
  {
    if cols == [] then []
    else
      var last := cols[|cols| - 1];
      ColumnLines(cols[..|cols| - 1]) + (if last.ColumnHash? then [ColumnLine(last.name, last.dataType)] else [])
  }

  /** The lines of one schema entry; `None` when its columns raise. */
  function EntryLines(t: TableEntry): (r: Option<seq<string>>)
    ensures r.None? <==> t.TableHash? && t.columns.NotEnumerable?
  {
    match t
    case OtherEntry => Some([])
    case TableHash(schema, table, cols) =>
      match cols
      case NoColumns => Some([TableLine(schema, table), "Columns:"])
      case ColumnList(items) => Some([TableLine(schema, table), "Columns:"] + ColumnLines(items))
      case NotEnumerable => None
  }

  predicate Raises(t: TableEntry) {
    t.TableHash? && t.columns.NotEnumerable?
  }

  /** The lines of the schema entries in order; `None` when one raises. */
  function EntriesLines(ts: seq<TableEntry>): (r: Option<seq<string>>)
    ensures r.None? <==> exists k :: 0 <= k < |ts| && Raises(ts[k])
    decreases |ts|
  {
    if ts == [] then Some([])
    else
      var init := ts[..|ts| - 1];
      var last := ts[|ts| - 1];
      assert forall k :: 0 <= k < |init| ==> init[k] == ts[k];
      match EntriesLines(init)
      case None => None
      case Some(a) =>
        match EntryLines(last)
        case None => None
        case Some(b) => Some(a + b)
  }

  /** The schema section, or `None` (Ruby's nil) when anything raises. */
  function Render(src: DataSource): Option<string> {
    match src
    case Missing => Some(Join(Header, "\n"))
    case WithoutSchema => Some(Join(Header, "\n"))
    case LookupRaises => None
    case WithSchema(SchemaOther(text)) => Some(Join(Header + ["```", text, "```"], "\n"))
    case WithSchema(SchemaArray(ts)) =>
      match EntriesLines(ts)
      case None => None
      case Some(lines) => Some(Join(Header + lines, "\n"))
  }

  /** `build_context`: the section assembled part by part, as the source's
      nested loops do. */
  method BuildContext(src: DataSource) returns (r: Option<string>)
    ensures r == Render(src)
  {
    var parts := Header;
    match src {
      case Missing =>
      case WithoutSchema =>
      case LookupRaises =>
        return None;
      case WithSchema(info) =>
        match info {
          case SchemaOther(text) =>
            parts := parts + ["```", text, "```"];
          case SchemaArray(ts) =>
            var i := 0;
            while i < |ts|
              invariant 0 <= i <= |ts|
              invariant EntriesLines(ts[..i]).Some? && parts == Header + EntriesLines(ts[..i]).value
            {
              EntriesStep(ts, i);
              var entry := RenderEntry(ts[i]);
              if entry.None? {
                assert Raises(ts[i]);
                return None;
              }
              parts := parts + entry.value;
              i := i + 1;
            }
            assert ts[..i] == ts;
        }
    }
    r := Some(Join(parts, "\n"));
  }

  /** The body of the table loop of `build_context`: the table and
      column lines of one entry, or `None` where `each` raises. */
  method RenderEntry(t: TableEntry) returns (lines: Option<seq<string>>)
    ensures lines == EntryLines(t)
  {
    match t {
      case OtherEntry =>
        lines := Some([]);
      case TableHash(schema, table, cols) =>
        var parts := [TableLine(schema, table), "Columns:"];
        match cols {
          case NoColumns =>
            lines := Some(parts);
          case NotEnumerable =>
            lines := None;
          case ColumnList(items) =>
            var columnLines := RenderColumns(items);
            lines := Some(parts + columnLines);
        }
    }
  }

  /** The inner loop of `build_context`: one line per Hash column. */
  method RenderColumns(items: seq<Column>) returns (lines: seq<string>)
    ensures lines == ColumnLines(items)
  {
    var j := 0;
    lines := [];
    while j < |items|
      invariant 0 <= j <= |items|
      invariant lines == ColumnLines(items[..j])
    {
      assert items[..j + 1][..j] == items[..j];
      if items[j].ColumnHash? {
        lines := lines + [ColumnLine(items[j].name, items[j].dataType)];
      }
      j := j + 1;
    }
    assert items[..j] == items;
  }

  /** One more table entry adds its own lines, or makes the whole list
      raise. */
  lemma EntriesStep(ts: seq<TableEntry>, i: nat)
    requires i < |ts| && EntriesLines(ts[..i]).Some?
    ensures EntriesLines(ts[..i + 1]) ==
      match EntryLines(ts[i])
      case None => None
      case Some(b) => Some(EntriesLines(ts[..i]).value + b)
  {
    assert ts[..i + 1][..i] == ts[..i];
  }

  // ---------------------------------------------------------------------
  // Properties
  // ---------------------------------------------------------------------

  /** The column lines of two lists are those of the first, then those of
      the second: each Hash column gives its line, in order. */
  lemma {:induction false} ColumnLinesConcat(a: seq<Column>, b: seq<Column>)
    ensures ColumnLines(a + b) == ColumnLines(a) + ColumnLines(b)
    decreases |b|
  {
    if b == [] {
      assert a + b == a;
    } else {
      var b0 := b[..|b| - 1];
      assert (a + b)[..|a + b| - 1] == a + b0;
      ColumnLinesConcat(a, b0);
    }
  }

  /** One column gives one line when it is a Hash and none otherwise. */
  lemma ColumnLinesSingle(c: Column)
    ensures ColumnLines([c]) == if c.ColumnHash? then [ColumnLine(c.name, c.dataType)] else []
  {
    assert [c][..0] == [];
  }

  /** The lines of two entry lists are those of the first, then those of
      the second, unless one of them raises. */
  lemma {:induction false} EntriesLinesConcat(a: seq<TableEntry>, b: seq<TableEntry>)
    requires EntriesLines(a).Some? && EntriesLines(b).Some?
    ensures EntriesLines(a + b) == Some(EntriesLines(a).value + EntriesLines(b).value)
    decreases |b|
  {
    if b == [] {
      assert a + b == a;
      assert EntriesLines(a).value + EntriesLines(b).value == EntriesLines(a).value;
    } else {
      var b0 := b[..|b| - 1];
      assert (a + b)[..|a + b| - 1] == a + b0;
      var last := b[|b| - 1];
      assert (a + b)[|a + b| - 1] == last;
      assert EntriesLines(b) == Some(EntriesLines(b0).value + EntryLines(last).value);
      EntriesLinesConcat(a, b0);
      var A, B0, L := EntriesLines(a).value, EntriesLines(b0).value, EntryLines(last).value;
      assert EntriesLines(a + b) == Some((A + B0) + L);
      assert (A + B0) + L == A + (B0 + L);
    }
  }

  /** A table entry gives its heading, `Columns:` and its column lines; any
      other entry gives nothing. */
  lemma EntriesLinesSingle(t: TableEntry)
    ensures EntriesLines([t]) == EntryLines(t)
  {
    assert [t][..0] == [];
    match EntryLines(t) {
      case None =>
      case Some(b) =>
        assert [] + b == b;
    }
  }

  /** `build_context` returns nil exactly when the lookup raises or a
      table's columns cannot be iterated. */
  lemma RenderNone(src: DataSource)
    ensures Render(src).None? <==>
      src.LookupRaises?
      || (src.WithSchema? && src.info.SchemaArray?
          && exists k :: 0 <= k < |src.info.tables| && Raises(src.info.tables[k]))
  {
  }

  /** Unless it is nil, the section starts with the two heading lines, and
      without a data source or its `schema` it is exactly those. */
  lemma RenderStartsWithHeader(src: DataSource)
    requires Render(src).Some?
    ensures Join(Header, "\n") <= Render(src).value
    ensures (src.Missing? || src.WithoutSchema?) ==> Render(src).value == Join(Header, "\n")
  {
    match src {
      case Missing =>
      case WithoutSchema =>
      case WithSchema(SchemaOther(text)) =>
        JoinConcat(Header, ["```", text, "```"], "\n");
      case WithSchema(SchemaArray(ts)) =>
        var lines := EntriesLines(ts).value;
        if lines != [] {
          JoinConcat(Header, lines, "\n");
        } else {
          assert Header + lines == Header;
        }
    }
  }

  /** A schema that is not a list is written verbatim between two fences. */
  lemma RenderVerbatim(text: string)
    ensures Render(WithSchema(SchemaOther(text))) == Some(Join(Header, "\n") + "\n" + "```" + "\n" + text + "\n" + "```")
  {
    JoinConcat(Header, ["```", text, "```"], "\n");
    var fenced := ["```", text, "```"];
    assert fenced[1..] == [text, "```"];
    assert Join([text, "```"], "\n") == text + "\n" + "```";
    assert Join(fenced, "\n") == "```" + "\n" + (text + "\n" + "```");
    assert Header + fenced == Header + ["```", text, "```"];
    var h := Join(Header, "\n");
    assert Render(WithSchema(SchemaOther(text))) == Some(h + "\n" + Join(fenced, "\n"));
    assert h + "\n" + ("```" + "\n" + (text + "\n" + "```")) == h + "\n" + "```" + "\n" + text + "\n" + "```";
  }
}
