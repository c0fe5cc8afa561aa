/** Query description extraction (streamingSQL/src/core/parser.rs): the tables, projected
    columns, inner-join conditions and the `WHERE` comparison of a `SELECT`, read from the
    syntax tree the SQL parser produces. The tree is modelled by the subset of the parser's
    node kinds this extraction looks at; every other kind is an `Other...` constructor. */
module QueryParser {
  import opened Wrappers
  import opened Text

  /** The one error `parse_query` returns rather than panics with. */
  const UnsupportedQuery := "Unsupported query type"

  // ---------------------------------------------------------------------------------------
  // Syntax tree subset

  /** An identifier and its opening quote character, if it was quoted. */
  datatype Ident = Ident(value: string, quoteStyle: Option<char>)

  datatype SqlValue = NumberLit(text: string) | BooleanLit(b: bool) | StringLit(s: string) | NullLit

  datatype BinOp = Eq | NotEq | Lt | LtEq | Gt | GtEq | And | Or | Plus | Minus | Multiply | Divide | Modulo

  datatype Expr =
    | Identifier(ident: Ident)
    | CompoundIdentifier(parts: seq<Ident>)
    | ValueExpr(v: SqlValue)
    | BinaryOp(left: Expr, op: BinOp, right: Expr)
    | OtherExpr

  datatype SelectItem = UnnamedExpr(expr: Expr) | OtherItem

  /** A table factor: a named table, or anything else (derived table, function, ...). */
  datatype TableFactor = Table(name: seq<Ident>) | OtherFactor

  datatype JoinConstraint = On(expr: Expr) | OtherConstraint

  datatype JoinOperator = Inner(constraint: JoinConstraint) | OtherJoin

  datatype Join = Join(relation: TableFactor, operator: JoinOperator)

  datatype TableWithJoins = TableWithJoins(relation: TableFactor, joins: seq<Join>)

  datatype SetExpr = Select(projection: seq<SelectItem>, from: seq<TableWithJoins>, selection: Option<Expr>) | OtherSetExpr

  datatype Statement = QueryStatement(body: SetExpr) | OtherStatement

  // ---------------------------------------------------------------------------------------
  // Query description

  /** A column, qualified by its table when `table` is not empty. */
  datatype RowProperty = RowProperty(table: string, row: string)

  datatype JoinCondition = JoinCondition(left: RowProperty, operator: string, right: RowProperty)

  datatype WhereCondition = WhereCondition(left: RowProperty, op: string, right: string)

  datatype Query = Query(tables: seq<string>, rows: seq<RowProperty>, condition: Option<WhereCondition>, joins: seq<JoinCondition>)

  /** `RowProperty::to_string` */
  function RowPropertyText(p: RowProperty): string {
    if |p.table| == 0 then p.row else p.table + "." + p.row
  }

  /** Splits at the first `.`: the inverse of `RowPropertyText` for dot-free table names. */
  function SplitAtFirstDot(s: string): (r: (string, string))
    ensures '.' !in s ==> r == ("", s)
    ensures '.' in s ==> '.' !in r.0 && s == r.0 + "." + r.1
    decreases |s|
  {
    if '.' !in s then ("", s)
    else if s[0] == '.' then
      assert s == "" + "." + s[1..];
      ("", s[1..])
    else
      var rest := SplitAtFirstDot(s[1..]);
      assert '.' in s[1..];
      assert s == [s[0]] + s[1..];
      ([s[0]] + rest.0, rest.1)
  }

  lemma {:induction false} SplitAfterPrefix(table: string, row: string)
    requires '.' !in table
    ensures SplitAtFirstDot(table + "." + row) == (table, row)
    decreases |table|
  {
    var s := table + "." + row;
    assert s[|table|] == '.';
    if |table| > 0 {
      assert s[0] == table[0];
      assert s[1..] == table[1..] + "." + row;
      SplitAfterPrefix(table[1..], row);
      assert [table[0]] + table[1..] == table;
    } else {
      assert s[1..] == row;
    }
  }

  /** The text names the column unambiguously: with a dot-free table name (and a dot-free
      column when unqualified), splitting at the first `.` gives back table and column. */
  lemma RowPropertyRoundTrip(p: RowProperty)
    requires '.' !in p.table
    requires |p.table| == 0 ==> '.' !in p.row
    ensures SplitAtFirstDot(RowPropertyText(p)) == (p.table, p.row)
  {
    if |p.table| > 0 {
      SplitAfterPrefix(p.table, p.row);
    }
  }

  /** `Display` of an identifier: the value, inside its quotes if it was quoted. */
  function IdentText(id: Ident): string {
    match id.quoteStyle
    case None => id.value
    case Some(q) => [q] + id.value + [if q == '[' then ']' else q]
  }

  function IdentTexts(name: seq<Ident>): (ts: seq<string>)
    ensures |ts| == |name| && forall i :: 0 <= i < |name| ==> ts[i] == IdentText(name[i])
  {
    seq(|name|, i requires 0 <= i < |name| => IdentText(name[i]))
  }

  /** `name.to_string().trim_matches('"')`: the dotted name with outer double quotes removed. */
  function TableNameText(name: seq<Ident>): string {
    TrimMatches(Text.Join(IdentTexts(name), "."), '"')
  }

  /** A one-part table name comes out as written, quoted with `"` or not, provided it does
      not itself start or end with `"`. */
  lemma TableNameUnquoted(v: string, quoted: bool)
    requires |v| > 0 && v[0] != '"' && v[|v| - 1] != '"'
    ensures TableNameText([Ident(v, if quoted then Some('"') else None)]) == v
  {
    var id := Ident(v, if quoted then Some('"') else None);
    var name := [id];
    assert IdentTexts(name) == [IdentText(id)];
    if quoted {
      var t := ['"'] + v + ['"'];
      assert IdentText(id) == t;
      assert t[1..] == v + ['"'];
      assert TrimStart(t[1..], '"') == v + ['"'];
      assert (v + ['"'])[..|v|] == v;
      assert TrimEnd(v + ['"'], '"') == TrimEnd(v, '"');
    }
  }

  /** `Display` of a binary operator. */
  function OpText(op: BinOp): string {
    match op
    case Eq => "="
    case NotEq => "<>"
    case Lt => "<"
    case LtEq => "<="
    case Gt => ">"
    case GtEq => ">="
    case And => "AND"
    case Or => "OR"
    case Plus => "+"
    case Minus => "-"
    case Multiply => "*"
    case Divide => "/"
    case Modulo => "%"
  }

  /** The operand mapping shared by projections, join conditions and `WHERE`: a plain
      identifier has no table, a compound one is `[table, column]` (indexing panics on fewer
      than two parts), anything else is two empty strings. */
  function Operand(e: Expr): (r: Result<RowProperty>)
    ensures e.Identifier? ==> r == Ok(RowProperty("", e.ident.value))
    ensures e.CompoundIdentifier? ==> (r.Ok? <==> |e.parts| >= 2)
    ensures e.CompoundIdentifier? && r.Ok? ==> r.value == RowProperty(e.parts[0].value, e.parts[1].value)
    ensures !e.Identifier? && !e.CompoundIdentifier? ==> r == Ok(RowProperty("", ""))
    ensures r.Err? ==> r.reason == IndexOutOfBounds
  {
    match e
    case Identifier(id) => Ok(RowProperty("", id.value))
    case CompoundIdentifier(parts) =>
      var table :- At(parts, 0);
      var row :- At(parts, 1);
      Ok(RowProperty(table.value, row.value))
    case _ => Ok(RowProperty("", ""))
  }

  /** The right side of a `WHERE` comparison: a number's text or `true`/`false`; every other
      operand, string literals included, is the empty string. */
  function RightLiteral(e: Expr): string {
    match e
    case ValueExpr(NumberLit(text)) => text
    case ValueExpr(BooleanLit(b)) => if b then "true" else "false"
    case _ => ""
  }

  /** `parse_condition` */
  function ParseCondition(selection: Option<Expr>): (r: Result<Option<WhereCondition>>)
    ensures selection.None? || !selection.value.BinaryOp? ==> r == Ok(None)
    ensures selection.Some? && selection.value.BinaryOp? ==>
      (r.Ok? <==> Operand(selection.value.left).Ok?) &&
      (r.Ok? ==> r.value == Some(WhereCondition(Operand(selection.value.left).value,
                                                OpText(selection.value.op),
                                                RightLiteral(selection.value.right))))
  {
    match selection
    case None => Ok(None)
    case Some(BinaryOp(left, op, right)) =>
      var l :- Operand(left);
      Ok(Some(WhereCondition(l, OpText(op), RightLiteral(right))))
    case Some(_) => Ok(None)
  }

  /** A `WHERE` column `= 'text'` keeps the column but loses the string. */
  lemma StringLiteralDropped(column: Ident, op: BinOp, s: string)
    ensures ParseCondition(Some(BinaryOp(Identifier(column), op, ValueExpr(StringLit(s))))) ==
      Ok(Some(WhereCondition(RowProperty("", column.value), OpText(op), "")))
  {
  }

  // ---------------------------------------------------------------------------------------
  // Projection

  /** The column one select item contributes: only unnamed plain or compound identifiers. */
  function ItemRows(item: SelectItem): Result<seq<RowProperty>> {
    match item
    case UnnamedExpr(Identifier(_)) =>
      var p :- Operand(item.expr);
      Ok([p])
    case UnnamedExpr(CompoundIdentifier(_)) =>
      var p :- Operand(item.expr);
      Ok([p])
    case _ => Ok([])
  }

  /** `parse_projection` */
  method ParseProjection(select: seq<SelectItem>) returns (r: Result<seq<RowProperty>>)
    ensures r == FlatMap(select, ItemRows)
  {
    var rows: seq<RowProperty> := [];
    for i := 0 to |select|
      invariant FlatMap(select[..i], ItemRows) == Ok(rows)
    {
      assert select[..i + 1][..i] == select[..i] && select[..i + 1][i] == select[i];
      match select[i] {
        case UnnamedExpr(expr) =>
          match expr {
            case Identifier(ident) =>
              rows := rows + [RowProperty("", ident.value)];
            case CompoundIdentifier(parts) =>
              if |parts| < 2 {
                FlatMapAppend(select[..i + 1], select[i + 1..], ItemRows);
                assert select[..i + 1] + select[i + 1..] == select;
                return Err(IndexOutOfBounds);
              }
              rows := rows + [RowProperty(parts[0].value, parts[1].value)];
            case _ =>
              assert rows + [] == rows;
          }
        case _ =>
          assert rows + [] == rows;
      }
    }
    assert select[..|select|] == select;
    r := Ok(rows);
  }

  /** The projection keeps exactly the unnamed identifier items, each as its column, in the
      order of the select list. */
  lemma ProjectionOrder(xs: seq<SelectItem>, ys: seq<SelectItem>, id: Ident, item: SelectItem)
    requires !item.UnnamedExpr?
    ensures FlatMap(xs + [UnnamedExpr(Identifier(id))] + ys, ItemRows) ==
      Then(FlatMap(xs, ItemRows), Then(Ok([RowProperty("", id.value)]), FlatMap(ys, ItemRows)))
    ensures FlatMap([item], ItemRows) == Ok([])
  {
    var x := UnnamedExpr(Identifier(id));
    FlatMapAppend(xs + [x], ys, ItemRows);
    FlatMapAppend(xs, [x], ItemRows);
    FlatMapSingle(x, ItemRows);
    FlatMapSingle(item, ItemRows);
    var a := FlatMap(xs, ItemRows);
    var c := FlatMap(ys, ItemRows);
    if a.Ok? && c.Ok? {
      assert (a.value + [RowProperty("", id.value)]) + c.value == a.value + ([RowProperty("", id.value)] + c.value);
    }
  }

  // ---------------------------------------------------------------------------------------
  // Tables

  function FactorTables(f: TableFactor): (ts: seq<string>)
    ensures |ts| <= 1
  {
    match f
    case Table(name) => [TableNameText(name)]
    case OtherFactor => []
  }

  function JoinTables(j: Join): Result<seq<string>> {
    Ok(FactorTables(j.relation))
  }

  /** The tables one `FROM` entry contributes: its base table, then its joined tables. */
  function EntryTables(t: TableWithJoins): Result<seq<string>> {
    var joined :- FlatMap(t.joins, JoinTables);
    Ok(FactorTables(t.relation) + joined)
  }

  /** Table names never fail to render. */
  lemma {:induction false} TablesNeverFail(from: seq<TableWithJoins>)
    ensures FlatMap(from, EntryTables).Ok?
    decreases |from|
  {
    if |from| > 0 {
      TablesNeverFail(from[..|from| - 1]);
      JoinTablesNeverFail(from[|from| - 1].joins);
    }
  }

  lemma {:induction false} JoinTablesNeverFail(joins: seq<Join>)
    ensures FlatMap(joins, JoinTables).Ok?
    ensures |FlatMap(joins, JoinTables).value| <= |joins|
    decreases |joins|
  {
    if |joins| > 0 {
      JoinTablesNeverFail(joins[..|joins| - 1]);
    }
  }

  /** The inner loop of `parse_from`: the named tables of one entry's joins, in order. */
  method CollectJoinTables(joins: seq<Join>) returns (tables: seq<string>)
    ensures FlatMap(joins, JoinTables) == Ok(tables)
  {
    tables := [];
    for j := 0 to |joins|
      invariant FlatMap(joins[..j], JoinTables) == Ok(tables)
    {
      FlatMapStep(joins, j, JoinTables);
      match joins[j].relation {
        case Table(name) =>
          tables := tables + [TableNameText(name)];
        case OtherFactor =>
          assert tables + [] == tables;
      }
    }
    assert joins[..|joins|] == joins;
  }

  /** `parse_from`: every base table, each followed by the tables joined to it. */
  method ParseFrom(from: seq<TableWithJoins>) returns (tables: seq<string>)
    ensures FlatMap(from, EntryTables) == Ok(tables)
  {
    tables := [];
    for i := 0 to |from|
      invariant FlatMap(from[..i], EntryTables) == Ok(tables)
    {
      FlatMapStep(from, i, EntryTables);
      ghost var before := tables;
      match from[i].relation {
        case Table(name) =>
          tables := tables + [TableNameText(name)];
        case OtherFactor =>
      }
      assert tables == before + FactorTables(from[i].relation);
      var joined := CollectJoinTables(from[i].joins);
      assert EntryTables(from[i]) == Ok(FactorTables(from[i].relation) + joined);
      SeqAssoc(before, FactorTables(from[i].relation), joined);
      tables := tables + joined;
    }
    assert from[..|from|] == from;
  }

  // ---------------------------------------------------------------------------------------
  // Join conditions

  /** The condition one join contributes: only an inner join `ON` a binary operation. */
  function JoinConditions(j: Join): Result<seq<JoinCondition>> {
    match j.operator
    case Inner(On(BinaryOp(left, op, right))) =>
      var l :- Operand(left);
      var r :- Operand(right);
      Ok([JoinCondition(l, OpText(op), r)])
    case _ => Ok([])
  }

  function EntryJoins(t: TableWithJoins): Result<seq<JoinCondition>> {
    FlatMap(t.joins, JoinConditions)
  }

  /** The inner loop of `parse_joins`: the conditions of one entry's joins, in order. */
  method CollectJoinConditions(joins: seq<Join>) returns (r: Result<seq<JoinCondition>>)
    ensures r == FlatMap(joins, JoinConditions)
  {
    var found: seq<JoinCondition> := [];
    for j := 0 to |joins|
      invariant FlatMap(joins[..j], JoinConditions) == Ok(found)
    {
      FlatMapStep(joins, j, JoinConditions);
      var next := JoinConditions(joins[j]);
      if next.Err? {
        FlatMapAppend(joins[..j + 1], joins[j + 1..], JoinConditions);
        assert joins[..j + 1] + joins[j + 1..] == joins;
        return Err(next.reason);
      }
      found := found + next.value;
    }
    assert joins[..|joins|] == joins;
    r := Ok(found);
  }

  /** `parse_joins` */
  method ParseJoins(from: seq<TableWithJoins>) returns (r: Result<seq<JoinCondition>>)
    ensures r == FlatMap(from, EntryJoins)
  {
    var found: seq<JoinCondition> := [];
    for i := 0 to |from|
      invariant FlatMap(from[..i], EntryJoins) == Ok(found)
    {
      FlatMapStep(from, i, EntryJoins);
      var next := CollectJoinConditions(from[i].joins);
      if next.Err? {
        FlatMapAppend(from[..i + 1], from[i + 1..], EntryJoins);
        assert from[..i + 1] + from[i + 1..] == from;
        return Err(next.reason);
      }
      found := found + next.value;
    }
    assert from[..|from|] == from;
    r := Ok(found);
  }

  /** Joins other than `INNER ... ON <binary operation>` contribute nothing. */
  lemma NonInnerJoinsSkipped(j: Join)
    requires !j.operator.Inner? || !j.operator.constraint.On? || !j.operator.constraint.expr.BinaryOp?
    ensures JoinConditions(j) == Ok([])
  {
  }

  // ---------------------------------------------------------------------------------------
  // The query

  /** What `parse_query` computes from the parsed statements. */
  function QueryOf(ast: seq<Statement>): Result<Query> {
    var statement :- At(ast, 0);
    match statement
    case QueryStatement(Select(projection, from, selection)) =>
      var rows :- FlatMap(projection, ItemRows);
      TablesNeverFail(from);
      var tables := FlatMap(from, EntryTables).value;
      var joins :- FlatMap(from, EntryJoins);
      var condition :- ParseCondition(selection);
      Ok(Query(tables, rows, condition, joins))
    case _ => Err(UnsupportedQuery)
  }

  /** Only a `SELECT` is accepted: any other first statement or query body is rejected
      with the returned error `UnsupportedQuery`, and that error arises in no other way:
      every other failure is a panic, of an out-of-range index (`ast[0]` of no statements,
      or a compound identifier of fewer than two parts). */
  lemma UnsupportedQueries(ast: seq<Statement>)
    ensures QueryOf(ast) == Err(UnsupportedQuery) <==>
      |ast| > 0 && (!ast[0].QueryStatement? || !ast[0].body.Select?)
    ensures QueryOf(ast).Err? && QueryOf(ast) != Err(UnsupportedQuery) ==> QueryOf(ast).reason == IndexOutOfBounds
    ensures QueryOf(ast).Ok? ==> |ast| > 0 && ast[0].QueryStatement? && ast[0].body.Select?
  {
    if |ast| > 0 && ast[0].QueryStatement? && ast[0].body.Select? {
      var body := ast[0].body;
      ItemRowsFailures(body.projection);
      JoinsFailures(body.from);
    }
  }

  /** The projection fails only by an out-of-range index. */
  lemma ItemRowsFailures(projection: seq<SelectItem>)
    ensures FlatMap(projection, ItemRows).Err? ==> FlatMap(projection, ItemRows).reason == IndexOutOfBounds
  {
    FlatMapErr(projection, ItemRows);
    if FlatMap(projection, ItemRows).Err? {
      var i :| 0 <= i < |projection| && ItemRows(projection[i]).Err? &&
        ItemRows(projection[i]).reason == FlatMap(projection, ItemRows).reason;
    }
  }

  /** The join conditions fail only by an out-of-range index. */
  lemma JoinsFailures(from: seq<TableWithJoins>)
    ensures FlatMap(from, EntryJoins).Err? ==> FlatMap(from, EntryJoins).reason == IndexOutOfBounds
  {
    FlatMapErr(from, EntryJoins);
    if FlatMap(from, EntryJoins).Err? {
      var i :| 0 <= i < |from| && EntryJoins(from[i]).Err? &&
        EntryJoins(from[i]).reason == FlatMap(from, EntryJoins).reason;
      var joins := from[i].joins;
      FlatMapErr(joins, JoinConditions);
      var j :| 0 <= j < |joins| && JoinConditions(joins[j]).Err? &&
        JoinConditions(joins[j]).reason == FlatMap(joins, JoinConditions).reason;
    }
  }

  /** `parse_query`, given the statements `Parser::parse_sql` produced. */
  method ParseQuery(ast: seq<Statement>) returns (r: Result<Query>)
    ensures r == QueryOf(ast)
  {
    if |ast| == 0 {
      return Err(IndexOutOfBounds);
    }
    var statement := ast[0];
    match statement {
      case QueryStatement(body) =>
        if !body.Select? {
          return Err(UnsupportedQuery);
        }
        var rows :- ParseProjection(body.projection);
        var tables := ParseFrom(body.from);
        var joins :- ParseJoins(body.from);
        var condition :- ParseCondition(body.selection);
        return Ok(Query(tables, rows, condition, joins));
      case OtherStatement =>
        return Err(UnsupportedQuery);
    }
  }
}
