/**
 * The schema migration (scripts/migrate_database.py): the line parser that
 * reads the CREATE TABLE statements of schema.sql, the statement split that
 * replays the schema, and the pass that ALTER-adds the schema columns an
 * existing table lacks. SQLite itself (running a CREATE, the file backup)
 * is outside: the tables the replay creates are a parameter.
 */
module Migration {
  import opened Wrappers
  import Text

  /** One column as the parser records it. */
  datatype Column = Column(name: string, colType: string, definition: string)

  // ---------------------------------------------------------------------
  // The table name of a CREATE TABLE line
  // ---------------------------------------------------------------------

  /** The words the name search passes over. */
  predicate Filler(part: string) {
    var u := Text.Upper(part);
    u == "TABLE" || u == "EXISTS" || u == "IF" || u == "NOT"
  }

  /** `part.split('(')[0]`: the text before the first parenthesis. */
  function BeforeParen(part: string): (r: string)
    ensures r <= part && '(' !in r
    ensures |r| < |part| ==> part[|r|] == '('
  {
    if part == [] || part[0] == '(' then [] else [part[0]] + BeforeParen(part[1..])
  }

  /**
   * The name search over the words of the line from index `i`: fillers are
   * passed over; the first word holding a parenthesis gives the text before
   * it; a word right after EXISTS is the name (its `rstrip('(')` has nothing
   * to strip, since it holds no parenthesis); no match leaves the name unset.
   */
  function NameFrom(parts: seq<string>, i: nat): Option<string>
    decreases |parts| - i
  {
    if i >= |parts| then None
    else if Filler(parts[i]) then NameFrom(parts, i + 1)
    else if '(' in parts[i] then Some(BeforeParen(parts[i]))
    else if i > 0 && Text.Upper(parts[i - 1]) == "EXISTS" then Some(parts[i])
    else NameFrom(parts, i + 1)
  }

  /** The `for i, part in enumerate(parts)` loop with its two `break`s. */
  method ExtractTableName(parts: seq<string>) returns (name: Option<string>)
    ensures name == NameFrom(parts, 0)
  {
    var i := 0;
    while i < |parts|
      invariant 0 <= i <= |parts|
      invariant NameFrom(parts, 0) == NameFrom(parts, i)
    {
      var part := parts[i];
      var u := Text.Upper(part);
      if u == "TABLE" || u == "EXISTS" || u == "IF" || u == "NOT" {
        i := i + 1;
        continue;
      }
      if '(' in part {
        return Some(BeforeParen(part));
      } else if i > 0 && Text.Upper(parts[i - 1]) == "EXISTS" {
        return Some(part);
      }
      i := i + 1;
    }
    return None;
  }

  /** A word that upper-cases to a parenthesis-free keyword holds no parenthesis. */
  lemma {:induction false} NoParenInKeyword(w: string, keyword: string)
    requires Text.Upper(w) == keyword && '(' !in keyword
    ensures '(' !in w
  {
    forall i | 0 <= i < |w|
      ensures w[i] != '('
    {
      Text.UpperAt(w, i);
      assert keyword[i] in keyword;
    }
  }

  /** A word ending in a parenthesis is never a filler. */
  lemma {:induction false} ParenWordIsNoFiller(n: string)
    ensures !Filler(n + "(")
  {
    Text.UpperAt(n + "(", |n|);
  }

  /** CREATE TABLE IF NOT EXISTS name ( — in any letter case, the name is the word after EXISTS. */
  lemma {:induction false} NameAfterExists(create: string, table: string, ifWord: string, notWord: string,
                                           existsWord: string, n: string)
    requires Text.Upper(create) == "CREATE" && Text.Upper(table) == "TABLE" && Text.Upper(ifWord) == "IF"
    requires Text.Upper(notWord) == "NOT" && Text.Upper(existsWord) == "EXISTS"
    requires n != [] && '(' !in n && !Filler(n)
    ensures NameFrom([create, table, ifWord, notWord, existsWord, n, "("], 0) == Some(n)
  {
    var parts := [create, table, ifWord, notWord, existsWord, n, "("];
    NoParenInKeyword(create, "CREATE");
    assert NameFrom(parts, 0) == NameFrom(parts, 1) == NameFrom(parts, 2) == NameFrom(parts, 3);
    assert NameFrom(parts, 3) == NameFrom(parts, 4) == NameFrom(parts, 5);
  }

  /** CREATE TABLE name( — the name is the text before the parenthesis. */
  lemma {:induction false} NameBeforeParen(create: string, table: string, n: string)
    requires Text.Upper(create) == "CREATE" && Text.Upper(table) == "TABLE"
    requires '(' !in n
    ensures NameFrom([create, table, n + "("], 0) == Some(n)
  {
    var parts := [create, table, n + "("];
    NoParenInKeyword(create, "CREATE");
    assert NameFrom(parts, 0) == NameFrom(parts, 1) == NameFrom(parts, 2);
    ParenWordIsNoFiller(n);
    assert (n + "(")[|n|] == '(';
    BeforeParenStops(n);
  }

  lemma {:induction false} BeforeParenStops(n: string)
    requires '(' !in n
    ensures BeforeParen(n + "(") == n
  {
    if n != [] {
      assert (n + "(")[1..] == n[1..] + "(";
      BeforeParenStops(n[1..]);
    }
  }

  /**
   * CREATE TABLE name ( — the separate parenthesis is taken for the name
   * word, and the name comes out empty.
   */
  lemma {:induction false} SeparateParenGivesEmptyName(create: string, table: string, n: string)
    requires Text.Upper(create) == "CREATE" && Text.Upper(table) == "TABLE"
    requires n != [] && '(' !in n && !Filler(n)
    ensures NameFrom([create, table, n, "("], 0) == Some("")
  {
    var parts := [create, table, n, "("];
    NoParenInKeyword(create, "CREATE");
    assert NameFrom(parts, 0) == NameFrom(parts, 1) == NameFrom(parts, 2);
    assert NameFrom(parts, 2) == NameFrom(parts, 3);
    assert !Filler("(") && '(' in "(";
  }

  // ---------------------------------------------------------------------
  // Column lines
  // ---------------------------------------------------------------------

  /** `col_line.upper().startswith(kw)` for one of the table-constraint keywords. */
  predicate IsConstraint(colLine: string) {
    var u := Text.Upper(colLine);
    "PRIMARY" <= u || "FOREIGN" <= u || "UNIQUE" <= u || "CHECK" <= u || "CONSTRAINT" <= u
  }

  /** `s.rstrip(',')`. */
  function TrimCommas(s: string): (r: string)
    ensures r <= s
    ensures r == [] || r[|r| - 1] != ','
    ensures forall i :: |r| <= i < |s| ==> s[i] == ','
  {
    if s != [] && s[|s| - 1] == ',' then TrimCommas(s[..|s| - 1]) else s
  }

  /**
   * The column a definition line gives: none for a constraint line or one
   * with nothing left after the commas; otherwise its first word as the
   * name, its second (or TEXT) as the type, and the line as the definition.
   */
  function ColumnOf(line: string): (c: Option<Column>)
    ensures c.Some? <==> !IsConstraint(TrimCommas(line)) && Text.Words(TrimCommas(line)) != []
    ensures c.Some? ==> var parts := Text.Words(TrimCommas(line));
      c.value.name == parts[0] && c.value.definition == TrimCommas(line)
      && c.value.colType == (if |parts| > 1 then parts[1] else "TEXT")
  {
    var colLine := TrimCommas(line);
    if IsConstraint(colLine) then None
    else
      var parts := Text.Words(colLine);
      if parts == [] then None
      else Some(Column(parts[0], if |parts| > 1 then parts[1] else "TEXT", colLine))
  }

  /**
   * The keyword test is a plain prefix test, so a column whose name merely
   * begins with one of the keywords (`check_date`, `unique_code`) is taken
   * for a constraint and never recorded.
   */
  lemma {:induction false} KeywordPrefixedColumnDropped(rest: string)
    ensures ColumnOf("check" + rest) == None
  {
    var line := "check" + rest;
    var t := TrimCommas(line);
    assert line[4] == 'k';
    assert |t| >= 5;
    assert t[..5] == "check";
    forall i | 0 <= i < 5
      ensures Text.Upper(t)[i] == "CHECK"[i]
    {
      Text.UpperAt(t, i);
    }
    assert "CHECK" <= Text.Upper(t);
  }

  // ---------------------------------------------------------------------
  // parse_schema_tables
  // ---------------------------------------------------------------------

  /**
   * The parser's state: the dictionary built so far with its key order,
   * `current_table` (`None`, or a name that may be empty), `in_table`, and
   * the columns of the table being read.
   */
  datatype Parse = Parse(tables: map<string, seq<Column>>, order: seq<string>, current: Option<string>,
                         inTable: bool, columns: seq<Column>)

  const Start: Parse := Parse(map[], [], None, false, [])

  /** Python truthiness of `current_table`: set and non-empty. */
  predicate Named(current: Option<string>) {
    current.Some? && current.value != ""
  }

  predicate IsCreateTable(line: string) {
    "CREATE TABLE" <= Text.Upper(line)
  }

  /** The dictionary's key order lists each key once. */
  ghost predicate OrderValid(st: Parse) {
    (forall k :: k in st.tables <==> k in st.order)
    && forall a, b :: 0 <= a < b < |st.order| ==> st.order[a] != st.order[b]
  }

  /** One pass of the line loop, on the stripped line. */
  function Step(st: Parse, raw: string): (r: Parse)
    ensures r.tables != st.tables ==>
      ")" <= Text.Strip(raw) && st.inTable && Named(st.current) && r.tables == st.tables[st.current.value := st.columns]
    ensures r.columns != st.columns && !IsCreateTable(Text.Strip(raw)) ==>
      st.inTable && Named(st.current) && Text.Strip(raw) != [] && !("--" <= Text.Strip(raw))
      && ColumnOf(Text.Strip(raw)).Some? && r.columns == st.columns + [ColumnOf(Text.Strip(raw)).value]
    ensures st.current == Some("") && !IsCreateTable(Text.Strip(raw)) ==> r == st
  {
    var line := Text.Strip(raw);
    if IsCreateTable(line) then
      var name := NameFrom(Text.Words(line), 0);
      st.(current := if name.Some? then name else st.current, inTable := true, columns := [])
    else if st.inTable && Named(st.current) then
      if ")" <= line then
        st.(tables := st.tables[st.current.value := st.columns],
            order := if st.current.value in st.tables then st.order else st.order + [st.current.value],
            current := None, inTable := false)
      else if line != "" && !("--" <= line) then
        match ColumnOf(line)
        case None => st
        case Some(c) => st.(columns := st.columns + [c])
      else st
    else st
  }

  /** A key enters the order when it first enters the dictionary, and only then. */
  lemma StepKeepsOrder(st: Parse, raw: string)
    requires OrderValid(st)
    ensures OrderValid(Step(st, raw))
  {
    var r := Step(st, raw);
    if r.order != st.order {
      forall a, b | 0 <= a < b < |r.order|
        ensures r.order[a] != r.order[b]
      {
        if b == |st.order| {
          assert r.order[a] == st.order[a] && st.order[a] in st.tables;
        }
      }
    }
  }

  /** The line loop over a prefix of the lines. */
  function ParseAll(lines: seq<string>): (st: Parse)
    ensures OrderValid(st)
  {
    if lines == [] then Start
    else
      var front := ParseAll(lines[..|lines| - 1]);
      StepKeepsOrder(front, lines[|lines| - 1]);
      Step(front, lines[|lines| - 1])
  }

  /** `parse_schema_tables`: the tables found, in the dictionary's key order. */
  function SchemaTables(schema: string): Parse {
    ParseAll(Text.SplitOn(schema, '\n'))
  }

  /** A recorded table is never dropped by later lines. */
  lemma {:induction false} RecordedTablesStay(lines: seq<string>, more: seq<string>, name: string)
    requires name in ParseAll(lines).tables
    ensures name in ParseAll(lines + more).tables
    decreases |more|
  {
    if more != [] {
      var front := more[..|more| - 1];
      assert (lines + more)[..|lines + more| - 1] == lines + front;
      RecordedTablesStay(lines, front, name);
    } else {
      assert lines + more == lines;
    }
  }

  /** The body of the line loop, on the loop's local variables. */
  method ParseLine(tables: map<string, seq<Column>>, order: seq<string>, currentTable: Option<string>, inTable: bool,
                   currentColumns: seq<Column>, raw: string)
    returns (tables': map<string, seq<Column>>, order': seq<string>, currentTable': Option<string>, inTable': bool,
             currentColumns': seq<Column>)
    ensures Parse(tables', order', currentTable', inTable', currentColumns')
         == Step(Parse(tables, order, currentTable, inTable, currentColumns), raw)
  {
    tables', order', currentTable', inTable', currentColumns' := tables, order, currentTable, inTable, currentColumns;
    var line := Text.Strip(raw);
    if IsCreateTable(line) {
      var name := ExtractTableName(Text.Words(line));
      if name.Some? {
        currentTable' := name;
      }
      inTable' := true;
      currentColumns' := [];
    } else if inTable && currentTable.Some? && currentTable.value != "" {
      if ")" <= line {
        if currentTable.value !in tables {
          order' := order + [currentTable.value];
        }
        tables' := tables[currentTable.value := currentColumns];
        currentTable' := None;
        inTable' := false;
      } else if line != "" && !("--" <= line) {
        var col := ColumnOf(line);
        if col.Some? {
          currentColumns' := currentColumns + [col.value];
        }
      }
    }
  }

  /** The line loop of `parse_schema_tables`, with its state in local variables. */
  method ParseSchemaTables(schema: string) returns (tables: map<string, seq<Column>>, order: seq<string>)
    ensures tables == SchemaTables(schema).tables && order == SchemaTables(schema).order
    ensures forall k :: k in tables <==> k in order
    ensures forall a, b :: 0 <= a < b < |order| ==> order[a] != order[b]
  {
    var lines := Text.SplitOn(schema, '\n');
    tables, order := map[], [];
    var currentTable: Option<string> := None;
    var currentColumns: seq<Column> := [];
    var inTable := false;
    var k := 0;
    while k < |lines|
      invariant 0 <= k <= |lines|
      invariant Parse(tables, order, currentTable, inTable, currentColumns) == ParseAll(lines[..k])
    {
      assert lines[..k + 1][..k] == lines[..k];
      tables, order, currentTable, inTable, currentColumns :=
        ParseLine(tables, order, currentTable, inTable, currentColumns, lines[k]);
      k := k + 1;
    }
    assert lines[..k] == lines;
  }

  // ---------------------------------------------------------------------
  // Replaying the schema statements
  // ---------------------------------------------------------------------

  /** The statements as written: every `;`-separated piece, stripped, unless empty or starting with "--". */
  function KeptAsWritten(pieces: seq<string>): (kept: seq<string>)
    ensures forall s :: s in kept ==> s != "" && !("--" <= s)
    ensures forall p :: p in pieces && Text.Strip(p) != "" && !("--" <= Text.Strip(p)) ==> Text.Strip(p) in kept
  {
    if pieces == [] then []
    else
      var s := Text.Strip(pieces[0]);
      (if s == "" || "--" <= s then [] else [s]) + KeptAsWritten(pieces[1..])
  }

  /** The text of a statement once its leading comment lines are dropped. */
  function SqlBody(s: string): (r: string)
    ensures |r| <= |s|
    decreases |s|
  {
    var t := Text.Strip(s);
    if "--" <= t then
      var i := Text.LineEnd(t);
      if i == |t| then "" else SqlBody(t[i + 1..])
    else t
  }

  /** The statements worth running: those with SQL left once their leading comments are dropped. */
  function Kept(pieces: seq<string>): (kept: seq<string>)
    ensures forall s :: s in kept ==> exists p :: p in pieces && s == Text.Strip(p) && SqlBody(p) != ""
    ensures forall p :: p in pieces && SqlBody(p) != "" ==> Text.Strip(p) in kept
  {
    if pieces == [] then []
    else
      var s := Text.Strip(pieces[0]);
      (if SqlBody(pieces[0]) == "" then [] else [s]) + Kept(pieces[1..])
  }

  /** A text without the separator is one piece. */
  lemma {:induction false} SplitOnWithout(s: string, c: char)
    requires c !in s
    ensures Text.SplitOn(s, c) == [s]
  {
    if s != [] {
      SplitOnWithout(s[1..], c);
      assert [s[0]] + s[1..] == s;
    }
  }

  /** A text with no whitespace at either end is its own strip. */
  lemma StripFixed(s: string)
    requires s != [] && !Text.IsSpace(s[0]) && !Text.IsSpace(s[|s| - 1])
    ensures Text.Strip(s) == s
  {
  }

  /** A statement with one comment line above it: a single piece, its own strip, with `body` as its SQL. */
  lemma {:induction false} CommentedPiece(body: string)
    requires body != [] && !Text.IsSpace(body[0]) && !Text.IsSpace(body[|body| - 1])
    requires ';' !in body && !("--" <= body)
    ensures Text.SplitOn("--\n" + body, ';') == ["--\n" + body]
    ensures Text.Strip("--\n" + body) == "--\n" + body
    ensures SqlBody("--\n" + body) == body
  {
    var s := "--\n" + body;
    assert ';' !in s by {
      assert forall i :: 3 <= i < |s| ==> s[i] == body[i - 3];
    }
    SplitOnWithout(s, ';');
    StripFixed(s);
    assert s[3..] == body;
    StripFixed(body);
    assert Text.LineEnd(s) == 2 by {
      assert Text.IsLineBreak(s[2]) && !Text.IsLineBreak(s[0]) && !Text.IsLineBreak(s[1]);
    }
  }

  /**
   * As written, a comment line above a statement makes the whole statement
   * start with "--", and it is never run.
   */
  lemma {:induction false} AsWrittenSkipsCommentedStatement(body: string)
    requires body != [] && !Text.IsSpace(body[0]) && !Text.IsSpace(body[|body| - 1])
    requires ';' !in body && !("--" <= body)
    ensures KeptAsWritten(Text.SplitOn("--\n" + body, ';')) == []
  {
    CommentedPiece(body);
    assert "--" <= "--\n" + body;
  }

  /** Dropping the leading comment lines first keeps that statement. */
  lemma {:induction false} CommentedStatementKept(body: string)
    requires body != [] && !Text.IsSpace(body[0]) && !Text.IsSpace(body[|body| - 1])
    requires ';' !in body && !("--" <= body)
    ensures Kept(Text.SplitOn("--\n" + body, ';')) == ["--\n" + body]
  {
    CommentedPiece(body);
  }

  /** The replay loop: each statement sent to SQLite, in order. */
  method ReplayStatements(schema: string) returns (executed: seq<string>)
    ensures executed == Kept(Text.SplitOn(schema, ';'))
  {
    var pieces := Text.SplitOn(schema, ';');
    executed := [];
    var k := |pieces|;
    while k > 0
      invariant 0 <= k <= |pieces|
      invariant executed == Kept(pieces[k..])
    {
      k := k - 1;
      assert pieces[k..][1..] == pieces[k + 1..];
      if SqlBody(pieces[k]) != "" {
        executed := [Text.Strip(pieces[k])] + executed;
      }
    }
  }

  // ---------------------------------------------------------------------
  // Adding the missing columns
  // ---------------------------------------------------------------------

  /** SQLite's duplicate-column test ignores ASCII case. */
  predicate HasColumnNamed(cols: set<string>, name: string) {
    exists c :: c in cols && Text.Lower(c) == Text.Lower(name)
  }

  /**
   * The ALTERs for one table over its schema columns: a column whose name is
   * in the snapshot `existing_cols` is passed over; any other is added and
   * counted, unless the table already has it under some case, when SQLite
   * refuses it and the error is ignored.
   */
  function AlterAll(cols: set<string>, snapshot: set<string>, schemaCols: seq<Column>): (r: (set<string>, nat))
    ensures cols <= r.0 && r.1 <= |schemaCols|
  {
    if schemaCols == [] then (cols, 0)
    else
      var (c, n) := AlterAll(cols, snapshot, schemaCols[..|schemaCols| - 1]);
      var col := schemaCols[|schemaCols| - 1];
      if col.name in snapshot || HasColumnNamed(c, col.name) then (c, n) else (c + {col.name}, n + 1)
  }

  /** After the pass every schema column of the table is present, up to case. */
  lemma {:induction false} AlterAllCovers(cols: set<string>, snapshot: set<string>, schemaCols: seq<Column>)
    requires snapshot <= cols
    ensures forall j :: 0 <= j < |schemaCols| ==> HasColumnNamed(AlterAll(cols, snapshot, schemaCols).0, schemaCols[j].name)
  {
    if schemaCols != [] {
      var front := schemaCols[..|schemaCols| - 1];
      AlterAllCovers(cols, snapshot, front);
      var c := AlterAll(cols, snapshot, front).0;
      var r := AlterAll(cols, snapshot, schemaCols).0;
      assert c <= r;
      var col := schemaCols[|schemaCols| - 1];
      forall j | 0 <= j < |schemaCols|
        ensures HasColumnNamed(r, schemaCols[j].name)
      {
        if j < |schemaCols| - 1 {
          assert schemaCols[j] == front[j];
          var w :| w in c && Text.Lower(w) == Text.Lower(front[j].name);
          assert w in r;
        } else if col.name in snapshot || !HasColumnNamed(c, col.name) {
          assert col.name in r;
        }
      }
    }
  }

  /**
   * Only schema column names are added, each at most once, and the count is
   * the number of names the table gained.
   */
  lemma {:induction false} AlterAllCounts(cols: set<string>, snapshot: set<string>, schemaCols: seq<Column>)
    ensures forall x :: x in AlterAll(cols, snapshot, schemaCols).0 - cols ==>
              exists j :: 0 <= j < |schemaCols| && schemaCols[j].name == x
    ensures |AlterAll(cols, snapshot, schemaCols).0| == |cols| + AlterAll(cols, snapshot, schemaCols).1
  {
    if schemaCols != [] {
      var front := schemaCols[..|schemaCols| - 1];
      AlterAllCounts(cols, snapshot, front);
      var c := AlterAll(cols, snapshot, front).0;
      var r := AlterAll(cols, snapshot, schemaCols).0;
      var col := schemaCols[|schemaCols| - 1];
      forall x | x in r - cols
        ensures exists j :: 0 <= j < |schemaCols| && schemaCols[j].name == x
      {
        if x in c {
          assert x in c - cols;
          var j :| 0 <= j < |front| && front[j].name == x;
          assert schemaCols[j] == front[j];
        } else {
          assert col.name == x;
        }
      }
      if r != c {
        assert r == c + {col.name} && col.name !in c;
      }
    }
  }

  /** A second pass over a table that has every schema column adds nothing. */
  lemma {:induction false} AlterAllSettled(cols: set<string>, snapshot: set<string>, schemaCols: seq<Column>)
    requires forall j :: 0 <= j < |schemaCols| ==> HasColumnNamed(cols, schemaCols[j].name)
    ensures AlterAll(cols, snapshot, schemaCols) == (cols, 0)
  {
    if schemaCols != [] {
      AlterAllSettled(cols, snapshot, schemaCols[..|schemaCols| - 1]);
      assert schemaCols[..|schemaCols| - 1] == schemaCols[..|schemaCols| - 1];
      assert HasColumnNamed(cols, schemaCols[|schemaCols| - 1].name);
    }
  }

  /** The columns the outer loop adds, table by table in the schema's order (tables not in `existing` are skipped). */
  function AddedCount(tables: map<string, set<string>>, schema: map<string, seq<Column>>, order: seq<string>,
                      existing: set<string>): nat
  {
    if order == [] then 0
    else
      var t := order[|order| - 1];
      AddedCount(tables, schema, order[..|order| - 1], existing)
      + (if t in existing && t in schema && t in tables then AlterAll(tables[t], tables[t], schema[t]).1 else 0)
  }

  /** The count reads only the tables in `existing`. */
  lemma {:induction false} AddedCountFrame(a: map<string, set<string>>, b: map<string, set<string>>,
                                           schema: map<string, seq<Column>>, order: seq<string>, existing: set<string>)
    requires forall t :: t in existing ==> (t in a <==> t in b)
    requires forall t :: t in existing && t in a ==> a[t] == b[t]
    ensures AddedCount(a, schema, order, existing) == AddedCount(b, schema, order, existing)
  {
    if order != [] {
      AddedCountFrame(a, b, schema, order[..|order| - 1], existing);
    }
  }

  /**
   * Running the column pass again over its own result adds nothing: every
   * table it touched now has all its schema columns.
   */
  lemma {:induction false} AddedCountSettles(before: map<string, set<string>>, after: map<string, set<string>>,
                                             schema: map<string, seq<Column>>, order: seq<string>, existing: set<string>)
    requires after.Keys == before.Keys
    requires forall t :: t in existing && t in schema && t in before ==>
      after[t] == AlterAll(before[t], before[t], schema[t]).0
    ensures AddedCount(after, schema, order, existing) == 0
  {
    if order != [] {
      AddedCountSettles(before, after, schema, order[..|order| - 1], existing);
      var t := order[|order| - 1];
      if t in existing && t in schema && t in after {
        AlterAllCovers(before[t], before[t], schema[t]);
        AlterAllSettled(after[t], after[t], schema[t]);
      }
    }
  }

  /** The database schema: each table with its column names. */
  class SchemaDb {
    var tables: map<string, set<string>>

    constructor(tables: map<string, set<string>>)
      ensures this.tables == tables
    {
      this.tables := tables;
    }

    /** The inner loop: ALTER TABLE ... ADD COLUMN for one table. */
    method AddMissingColumns(table: string, schemaCols: seq<Column>) returns (added: nat)
      requires table in tables
      modifies this`tables
      ensures added == AlterAll(old(tables)[table], old(tables)[table], schemaCols).1
      ensures tables == old(tables)[table := AlterAll(old(tables)[table], old(tables)[table], schemaCols).0]
    {
      var existingCols := tables[table];
      added := 0;
      var k := 0;
      while k < |schemaCols|
        invariant 0 <= k <= |schemaCols|
        invariant table in tables
        invariant tables == old(tables)[table := tables[table]]
        invariant (tables[table], added) == AlterAll(existingCols, existingCols, schemaCols[..k])
      {
        assert schemaCols[..k + 1][..k] == schemaCols[..k];
        var col := schemaCols[k];
        if col.name !in existingCols {
          if !HasColumnNamed(tables[table], col.name) {
            tables := tables[table := tables[table] + {col.name}];
            added := added + 1;
          }
        }
        k := k + 1;
      }
      assert schemaCols[..k] == schemaCols;
    }

    /**
     * The outer loop, in the dictionary's order: only tables that existed
     * before the replay are altered.
     */
    method AddMissingAll(schema: map<string, seq<Column>>, order: seq<string>, existing: set<string>) returns (changes: nat)
      requires forall k :: k in schema <==> k in order
      requires forall a, b :: 0 <= a < b < |order| ==> order[a] != order[b]
      requires existing <= tables.Keys
      modifies this`tables
      ensures tables.Keys == old(tables).Keys
      ensures forall t :: t in tables ==> old(tables)[t] <= tables[t]
      ensures forall t :: t in tables && (t !in existing || t !in schema) ==> tables[t] == old(tables)[t]
      ensures forall t :: t in existing && t in schema ==>
        tables[t] == AlterAll(old(tables)[t], old(tables)[t], schema[t]).0
      ensures changes == AddedCount(old(tables), schema, order, existing)
    {
      changes := 0;
      var k := 0;
      while k < |order|
        invariant 0 <= k <= |order|
        invariant PassedTables(old(tables), tables, schema, order[..k], existing)
        invariant changes == AddedCount(old(tables), schema, order[..k], existing)
      {
        var t := order[k];
        ghost var before := tables;
        PassFresh(old(tables), before, schema, order, k, existing);
        var added := 0;
        if t in existing {
          added := AddMissingColumns(t, schema[t]);
        }
        PassStep(old(tables), before, tables, schema, order, k, existing, added);
        changes := changes + added;
        k := k + 1;
      }
      assert order[..k] == order;
    }
  }

  /**
   * The state of the outer loop after the tables of `done`: same tables,
   * none shrunk, the altered ones exactly those of `done` that existed.
   */
  ghost predicate PassedTables(orig: map<string, set<string>>, cur: map<string, set<string>>,
                               schema: map<string, seq<Column>>, done: seq<string>, existing: set<string>)
  {
    && cur.Keys == orig.Keys
    && (forall t :: t in cur ==> orig[t] <= cur[t])
    && (forall t :: t in cur && (t !in existing || t !in done) ==> cur[t] == orig[t])
    && (forall t :: t in existing && t in done ==> t in schema && t in orig && cur[t] == AlterAll(orig[t], orig[t], schema[t]).0)
  }

  /** The next table of a duplicate-free order is still unaltered. */
  lemma PassFresh(orig: map<string, set<string>>, cur: map<string, set<string>>, schema: map<string, seq<Column>>,
                  order: seq<string>, k: nat, existing: set<string>)
    requires k < |order|
    requires forall a, b :: 0 <= a < b < |order| ==> order[a] != order[b]
    requires PassedTables(orig, cur, schema, order[..k], existing)
    ensures order[k] !in order[..k]
    ensures order[k] in cur ==> cur[order[k]] == orig[order[k]]
  {
    assert forall a :: 0 <= a < k ==> order[a] != order[k];
  }

  /** One table of the outer loop keeps `PassedTables` and adds its own count. */
  lemma PassStep(orig: map<string, set<string>>, before: map<string, set<string>>, after: map<string, set<string>>,
                 schema: map<string, seq<Column>>, order: seq<string>, k: nat, existing: set<string>, added: nat)
    requires k < |order| && order[k] in schema
    requires existing <= orig.Keys
    requires PassedTables(orig, before, schema, order[..k], existing)
    requires order[k] !in order[..k]
    requires order[k] in existing ==>
      after == before[order[k] := AlterAll(before[order[k]], before[order[k]], schema[order[k]]).0]
    requires order[k] in existing ==> added == AlterAll(before[order[k]], before[order[k]], schema[order[k]]).1
    requires order[k] !in existing ==> after == before && added == 0
    ensures PassedTables(orig, after, schema, order[..k + 1], existing)
    ensures AddedCount(orig, schema, order[..k + 1], existing) == AddedCount(orig, schema, order[..k], existing) + added
  {
    var t := order[k];
    assert order[..k + 1][..k] == order[..k];
    assert forall u :: u in order[..k + 1] <==> u in order[..k] || u == t;
  }

  /** What the run reports. */
  datatype Outcome =
    | CreatedFromSchema
    | SchemaMissing
    | Migrated(executed: seq<string>, tablesAdded: set<string>, columnsAdded: nat)

  /**
   * `migrate_database`: no database means one is built from the schema
   * (SQLite's work, not modelled); a missing schema file stops the run;
   * otherwise the statements are replayed (creating the tables `created`),
   * the missing columns of the tables that existed are added, and the new
   * tables are those present after and not before.
   */
  method MigrateDatabase(db: SchemaDb, databaseExists: bool, schemaExists: bool, schema: string,
                         created: map<string, set<string>>) returns (outcome: Outcome)
    requires created.Keys !! db.tables.Keys
    modifies db`tables
    ensures !databaseExists ==> outcome == CreatedFromSchema && db.tables == old(db.tables)
    ensures databaseExists && !schemaExists ==> outcome == SchemaMissing && db.tables == old(db.tables)
    ensures databaseExists && schemaExists ==>
      outcome.Migrated?
      && outcome.executed == Kept(Text.SplitOn(schema, ';'))
      && outcome.tablesAdded == created.Keys
      && db.tables.Keys == old(db.tables).Keys + created.Keys
      && (forall t :: t in created ==> db.tables[t] == created[t])
      && (forall t :: t in old(db.tables) ==> old(db.tables)[t] <= db.tables[t])
      && (forall t :: t in old(db.tables) && t !in SchemaTables(schema).tables ==> db.tables[t] == old(db.tables)[t])
      && (forall t :: t in old(db.tables) && t in SchemaTables(schema).tables ==>
            db.tables[t] == AlterAll(old(db.tables)[t], old(db.tables)[t], SchemaTables(schema).tables[t]).0)
      && outcome.columnsAdded == AddedCount(old(db.tables), SchemaTables(schema).tables, SchemaTables(schema).order,
                                            old(db.tables).Keys)
  {
    if !databaseExists {
      return CreatedFromSchema;
    }
    if !schemaExists {
      return SchemaMissing;
    }
    var existingTables := db.tables.Keys;
    var tables, order := ParseSchemaTables(schema);
    var executed := ReplayStatements(schema);
    db.tables := db.tables + created;
    ghost var merged := db.tables;
    var changes := db.AddMissingAll(tables, order, existingTables);
    AddedCountFrame(merged, old(db.tables), tables, order, existingTables);
    outcome := Migrated(executed, db.tables.Keys - existingTables, changes);
  }
}
