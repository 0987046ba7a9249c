/**
 * The record mapper of src/models/BaseModel.js: a table name, a mutable held
 * record (`modelData`), and the parameterised SQL it builds from the keys of a
 * record. The database is a function from query text and positional
 * parameters to `{rowCount, rows}`; SQL is only text here, never executed.
 */
module Mapper {
  import opened JsValues

  /** What the database returns for a query: `{ rowCount, rows }`. */
  datatype QueryResult = QueryResult(rowCount: int, rows: seq<Value>)

  /** The connection's `query(text, params)`. */
  type Database = (string, seq<Value>) -> QueryResult

  /** What a call throws: `new Error(m)`, a `TypeError` raised by a built-in, or a value thrown by a callee. */
  datatype Exception = Error(message: string) | TypeError(message: string) | Thrown(value: Value)

  /** How a call ends: it throws, or it returns a value. */
  datatype Outcome = Threw(exception: Exception) | Returned(value: Value)

  datatype Result<T> = Success(value: T) | Failure(exception: Exception)

  /** A query text with the positional parameters `$1..$n` it is sent with. */
  datatype Query = Query(text: string, params: seq<Value>)

  const EmptyQueryMessage := "Query object is empty."
  const NotAnObjectMessage := "Data must be an object."
  const NullishKeysMessage := "Cannot convert undefined or null to object"

  // ---------------------------------------------------------------------------
  // Query text

  /** `$k`, the k-th positional parameter: a word without space or comma that reads back as k. */
  function Placeholder(k: nat): (r: string)
    ensures IsPlaceholder(r) && ParseNat(r[1..]) == k
    ensures ' ' !in r && ',' !in r
  {
    var r := "$" + NatToString(k);
    assert r[1..] == NatToString(k);
    ParseNatToString(k);
    r
  }

  function FindByIdSql(table: string): string {
    "\n    SELECT *\n    FROM " + table + " as t\n    WHERE t.id = $1\n  "
  }

  function FindOneSql(table: string, whereClause: string): string {
    "\n      SELECT *\n      FROM " + table + " as t\n      WHERE " + whereClause + "\n      LIMIT 1\n    "
  }

  function InsertSql(table: string, columnNames: string, valuePlaceholders: string): string {
    "\n      INSERT INTO " + table + " (" + columnNames + ")\n      VALUES (" + valuePlaceholders + ")\n      RETURNING *;\n    "
  }

  /** `${column} = $${k}`: for a column without spaces, its words are the column, `=` and `$k`. */
  function Condition(column: string, k: nat): (r: string)
    ensures ' ' !in column ==> Split(r, ' ') == [column, "=", Placeholder(k)]
  {
    ConditionWords(column, k);
    column + " = " + Placeholder(k)
  }

  /** `columns.map((column, index) => `${column} = $${index + 1}`)`, numbering from `first`. */
  function Conditions(columns: seq<string>, first: nat): (r: seq<string>)
    ensures |r| == |columns|
    ensures forall i :: 0 <= i < |r| && ' ' !in columns[i] ==>
              Split(r[i], ' ') == [columns[i], "=", Placeholder(first + i)]
  {
    seq(|columns|, i requires 0 <= i < |columns| => Condition(columns[i], first + i))
  }

  /** Column i bound to parameter `first + i`, for every column. */
  function Bindings(columns: seq<string>, first: nat): seq<Binding> {
    seq(|columns|, i requires 0 <= i < |columns| => Binding(columns[i], first + i))
  }

  /**
   * The conjunctive WHERE clause of `findOne`: when no column has a space, it
   * reads back as column i bound to `$i+1`.
   */
  function WhereClause(columns: seq<string>): (r: string)
    ensures |columns| >= 1 && (forall i :: 0 <= i < |columns| ==> ' ' !in columns[i]) ==>
              ParseWhere(r) == Some(Bindings(columns, 1))
  {
    WhereClauseDecodes(columns);
    Join(Conditions(columns, 1), " AND ")
  }

  /** `columns.map((_, index) => `$${index + 1}`)`, numbering from `first`: item i reads back as `first + i`. */
  function Placeholders(n: nat, first: nat): (r: seq<string>)
    ensures |r| == n
    ensures forall i :: 0 <= i < n ==> IsPlaceholder(r[i]) && ParseNat(r[i][1..]) == first + i && ',' !in r[i]
  {
    var r := seq(n, i requires 0 <= i < n => Placeholder(first + i));
    assert forall i :: 0 <= i < n ==> r[i] == Placeholder(first + i);
    r
  }

  // ---------------------------------------------------------------------------
  // The queries each operation issues

  /**
   * The query `findOne(queryObject)` sends, or what it throws first:
   * `Object.keys` of `null`/`undefined` is a TypeError, an object with no keys
   * is refused.
   */
  function FindOneQuery(table: string, queryObject: Value): (r: Result<Query>)
    ensures r.Failure? <==> |OwnEntries(queryObject)| == 0
    ensures queryObject.Null? || queryObject.Undefined? ==> r == Failure(TypeError(NullishKeysMessage))
    ensures r.Success? ==> |r.value.params| == |OwnEntries(queryObject)|
  {
    if queryObject.Null? || queryObject.Undefined? then Failure(TypeError(NullishKeysMessage))
    else
      var entries := OwnEntries(queryObject);
      if |Keys(entries)| == 0 then Failure(Error(EmptyQueryMessage))
      else Success(Query(FindOneSql(table, WhereClause(Keys(entries))), Values(entries)))
  }

  /** The query `insertOne` sends for the held record, or the refusal of a non-object. */
  function InsertQuery(table: string, held: Value): (r: Result<Query>)
    ensures r.Failure? <==> !held.Obj?
    ensures r.Success? ==> |r.value.params| == |held.entries|
  {
    if !Truthy(held) || !TypeofObject(held) then Failure(Error(NotAnObjectMessage))
    else
      var columns := Keys(held.entries);
      Success(Query(InsertSql(table, Join(columns, ", "), Join(Placeholders(|columns|, 1), ", ")),
                    Values(held.entries)))
  }

  /** `if (rowCount < 1) return null; return rows[0];`: null when nothing matched, else the first row it was given. */
  function FirstRow(res: QueryResult): (r: Value)
    ensures res.rowCount < 1 ==> r == Null
    ensures res.rowCount >= 1 && |res.rows| > 0 ==> r == res.rows[0]
    ensures r == Null || r == Undefined || r in res.rows
  {
    if res.rowCount < 1 then Null
    else if |res.rows| > 0 then res.rows[0]
    else Undefined
  }

  /** Issues the query, if there is one, and reads its first row. */
  function Run(q: Result<Query>, db: Database): Outcome {
    match q
    case Failure(e) => Threw(e)
    case Success(query) => Returned(FirstRow(db(query.text, query.params)))
  }

  // ---------------------------------------------------------------------------
  // The mapper

  class BaseModel {
    const tableName: string
    var modelData: Value

    constructor (tableName: string)
      ensures this.tableName == tableName
      ensures modelData == Obj([])
    {
      this.tableName := tableName;
      modelData := Obj([]);
    }

    method FindById(id: Value, db: Database) returns (r: Value)
      ensures r == FirstRow(db(FindByIdSql(tableName), [id]))
    {
      var res := db(FindByIdSql(tableName), [id]);
      if res.rowCount < 1 {
        return Null;
      }
      r := if |res.rows| > 0 then res.rows[0] else Undefined;
    }

    method FindOne(queryObject: Value, db: Database) returns (r: Outcome)
      ensures r == Run(FindOneQuery(tableName, queryObject), db)
    {
      if queryObject.Null? || queryObject.Undefined? {
        return Threw(TypeError(NullishKeysMessage));
      }
      var entries := OwnEntries(queryObject);
      if |entries| == 0 {
        return Threw(Error(EmptyQueryMessage));
      }
      var columns := Keys(entries);
      var values := Values(entries);
      var sqlQuery := FindOneSql(tableName, WhereClause(columns));
      var res := db(sqlQuery, values);
      r := Returned(FirstRow(res));
    }

    /**
     * A truthy `data` replaces the held record even when it is not an object;
     * the check that follows then throws and leaves it replaced.
     */
    method InsertOne(data: Value, db: Database) returns (r: Outcome)
      modifies this
      ensures modelData == if Truthy(data) then data else old(modelData)
      ensures r == Run(InsertQuery(tableName, modelData), db)
    {
      if Truthy(data) {
        modelData := data;
      }
      if !Truthy(modelData) || !TypeofObject(modelData) {
        return Threw(Error(NotAnObjectMessage));
      }
      var columns := Keys(modelData.entries);
      var values := Values(modelData.entries);
      var sqlQuery := InsertSql(tableName, Join(columns, ", "), Join(Placeholders(|columns|, 1), ", "));
      var res := db(sqlQuery, values);
      r := Returned(FirstRow(res));
    }

    method SetModelData(data: Value) returns (r: Outcome)
      modifies this
      ensures !data.Obj? ==> r == Threw(Error(NotAnObjectMessage)) && modelData == old(modelData)
      ensures data.Obj? ==> r == Returned(Undefined) && modelData == Obj(Spread(old(modelData), data))
    {
      if !Truthy(data) || !TypeofObject(data) {
        return Threw(Error(NotAnObjectMessage));
      }
      modelData := Obj(Spread(modelData, data));
      r := Returned(Undefined);
    }

    method GetModelData() returns (r: Value)
      ensures r == modelData
    {
      r := modelData;
    }

    /** `validate` is the schema's `validate`, reduced to the `error` it reports. */
    method ValidateData(validate: Value -> Value) returns (r: Outcome)
      ensures Truthy(validate(modelData)) <==> r.Threw?
      ensures r.Threw? ==> r.exception == Thrown(validate(modelData))
      ensures r.Returned? ==> r.value == Undefined
    {
      var error := validate(modelData);
      if Truthy(error) {
        return Threw(Thrown(error));
      }
      r := Returned(Undefined);
    }
  }

  // ---------------------------------------------------------------------------
  // Reading the query text back

  /** A WHERE condition read back from the text: the column and the parameter number it is bound to. */
  datatype Binding = Binding(column: string, position: nat)

  predicate IsPlaceholder(t: string) {
    |t| >= 2 && t[0] == '$' && forall i :: 1 <= i < |t| ==> IsDigit(t[i])
  }

  /** Reads `c1 = $p1 AND c2 = $p2 ...` from its space-separated words. */
  function ParseConditions(words: seq<string>): Option<seq<Binding>>
    decreases |words|
  {
    if |words| < 3 || words[1] != "=" || !IsPlaceholder(words[2]) then None
    else
      var b := Binding(words[0], ParseNat(words[2][1..]));
      if |words| == 3 then Some([b])
      else if words[3] != "AND" then None
      else match ParseConditions(words[4..])
        case None => None
        case Some(bs) => Some([b] + bs)
  }

  function ParseWhere(whereClause: string): Option<seq<Binding>> {
    ParseConditions(Split(whereClause, ' '))
  }

  /** Reads a `", "`-separated list back into its items. */
  function ParseList(s: string): seq<string> {
    var pieces := Split(s, ',');
    [pieces[0]] + seq(|pieces| - 1, i requires 0 <= i < |pieces| - 1 => DropSpace(pieces[i + 1]))
  }

  function DropSpace(s: string): string {
    if |s| > 0 && s[0] == ' ' then s[1..] else s
  }

  // ---------------------------------------------------------------------------
  // Lemmas

  /** Distinct parameter numbers have distinct placeholders. */
  lemma PlaceholderInjective(j: nat, k: nat)
    requires Placeholder(j) == Placeholder(k)
    ensures j == k
  {
    assert Placeholder(j)[1..] == NatToString(j);
    assert Placeholder(k)[1..] == NatToString(k);
    NatToStringInjective(j, k);
  }

  lemma ConditionsTail(columns: seq<string>, first: nat)
    requires |columns| >= 1
    ensures Conditions(columns, first)[1..] == Conditions(columns[1..], first + 1)
  {
  }

  /** Splitting one condition `c = $k` at its spaces gives its three words. */
  lemma ConditionWords(c: string, k: nat)
    ensures ' ' !in c ==> Split(c + " = " + Placeholder(k), ' ') == [c, "=", Placeholder(k)]
  {
    if ' ' in c {
      return;
    }
    var p := Placeholder(k);
    SplitNoSeparator(c, ' ');
    SplitNoSeparator("=", ' ');
    SplitNoSeparator(p, ' ');
    assert c + " = " + p == c + [' '] + ("=" + [' '] + p);
    SplitConcat(c, ' ', "=" + [' '] + p);
    SplitConcat("=", ' ', p);
  }

  /** `x AND tail` splits into the words of x, `AND`, and the words of tail. */
  lemma AndWords(x: string, tail: string)
    ensures Split(x + " AND " + tail, ' ') == Split(x, ' ') + ["AND"] + Split(tail, ' ')
  {
    SplitNoSeparator("AND", ' ');
    assert x + " AND " + tail == x + [' '] + ("AND" + [' '] + tail);
    SplitConcat(x, ' ', "AND" + [' '] + tail);
    SplitConcat("AND", ' ', tail);
  }

  /**
   * The WHERE clause reads back as condition i binding column i to
   * parameter `first + i`, when no column name contains a space.
   */
  lemma {:induction false} ConditionsDecode(columns: seq<string>, first: nat)
    requires |columns| >= 1
    requires forall i :: 0 <= i < |columns| ==> ' ' !in columns[i]
    ensures ParseWhere(Join(Conditions(columns, first), " AND ")) == Some(Bindings(columns, first))
    decreases |columns|
  {
    var cs := Conditions(columns, first);
    var bs := Bindings(columns, first);
    var b := Binding(columns[0], first);
    var head := Split(cs[0], ' ');
    assert head == [columns[0], "=", Placeholder(first)];
    if |columns| == 1 {
      assert Join(cs, " AND ") == cs[0];
      assert ParseConditions(head) == Some([b]);
      assert bs == [b];
    } else {
      var rest := columns[1..];
      ConditionsTail(columns, first);
      var tail := Join(Conditions(rest, first + 1), " AND ");
      assert Join(cs, " AND ") == cs[0] + " AND " + tail;
      AndWords(cs[0], tail);
      var words := head + ["AND"] + Split(tail, ' ');
      assert words[4..] == Split(tail, ' ');
      ConditionsDecode(rest, first + 1);
      BindingsTail(columns, first);
      assert ParseConditions(words) == Some([b] + Bindings(rest, first + 1));
    }
  }

  lemma BindingsTail(columns: seq<string>, first: nat)
    requires |columns| >= 1
    ensures Bindings(columns, first) == [Binding(columns[0], first)] + Bindings(columns[1..], first + 1)
  {
  }

  /** The WHERE clause of columns without spaces reads back as its bindings. */
  lemma WhereClauseDecodes(columns: seq<string>)
    ensures |columns| >= 1 && (forall i :: 0 <= i < |columns| ==> ' ' !in columns[i]) ==>
              ParseWhere(Join(Conditions(columns, 1), " AND ")) == Some(Bindings(columns, 1))
  {
    if |columns| >= 1 && forall i :: 0 <= i < |columns| ==> ' ' !in columns[i] {
      ConditionsDecode(columns, 1);
    }
  }

  /** Splitting `p0, p1, ...` at its commas leaves a space before every item but the first. */
  lemma {:induction false} JoinCommaSplit(parts: seq<string>)
    requires |parts| >= 1
    requires forall i :: 0 <= i < |parts| ==> ',' !in parts[i]
    ensures |Split(Join(parts, ", "), ',')| == |parts|
    ensures Split(Join(parts, ", "), ',')[0] == parts[0]
    ensures forall i :: 1 <= i < |parts| ==> Split(Join(parts, ", "), ',')[i] == " " + parts[i]
    decreases |parts|
  {
    SplitNoSeparator(parts[0], ',');
    if |parts| > 1 {
      var rest := parts[1..];
      var tail := Join(rest, ", ");
      assert Join(parts, ", ") == parts[0] + [','] + (" " + tail);
      SplitConcat(parts[0], ',', " " + tail);
      JoinCommaSplit(rest);
      assert (" " + tail)[1..] == tail;
    }
  }

  /** The comma-separated lists of `insertOne` read back as the items they were built from. */
  lemma ListDecodes(parts: seq<string>)
    requires |parts| >= 1
    requires forall i :: 0 <= i < |parts| ==> ',' !in parts[i]
    ensures ParseList(Join(parts, ", ")) == parts
  {
    JoinCommaSplit(parts);
    var pieces := Split(Join(parts, ", "), ',');
    forall i | 1 <= i < |parts| ensures DropSpace(pieces[i]) == parts[i] {
      assert (" " + parts[i])[1..] == parts[i];
    }
    var r := ParseList(Join(parts, ", "));
    assert |r| == |parts|;
    forall i | 0 <= i < |parts| ensures r[i] == parts[i] {
      if i > 0 {
        assert r[i] == DropSpace(pieces[i]);
      }
    }
  }

  /** For the rows a database returns (`rowCount` rows, each an object): null exactly when nothing matched. */
  lemma FirstRowOfRows(res: QueryResult)
    requires res.rowCount == |res.rows|
    requires forall i :: 0 <= i < |res.rows| ==> res.rows[i].Obj?
    ensures FirstRow(res) == Null <==> res.rowCount < 1
    ensures res.rowCount >= 1 ==> FirstRow(res) == res.rows[0]
  {
  }

  /** `findOne` of a query object without keys throws before the database is consulted. */
  lemma EmptyQueryThrows(table: string, queryObject: Value, db1: Database, db2: Database)
    requires OwnEntries(queryObject) == []
    ensures Run(FindOneQuery(table, queryObject), db1).Threw?
    ensures Run(FindOneQuery(table, queryObject), db1) == Run(FindOneQuery(table, queryObject), db2)
    ensures !queryObject.Null? && !queryObject.Undefined? ==>
              Run(FindOneQuery(table, queryObject), db1) == Threw(Error(EmptyQueryMessage))
    ensures queryObject.Null? || queryObject.Undefined? ==>
              Run(FindOneQuery(table, queryObject), db1) == Threw(TypeError(NullishKeysMessage))
  {
  }

  /**
   * For a query object with keys c1..cn (none containing a space), `findOne`
   * sends `c1 = $1 AND ... AND cn = $n` with parameters v1..vn: reading the
   * clause back, condition i names column ci and parameter i, and parameter i
   * is the query object's value for ci.
   */
  lemma FindOneBindsInOrder(table: string, queryObject: Value)
    requires |OwnEntries(queryObject)| >= 1
    requires DistinctKeys(OwnEntries(queryObject))
    requires forall i :: 0 <= i < |OwnEntries(queryObject)| ==> ' ' !in OwnEntries(queryObject)[i].key
    ensures var entries := OwnEntries(queryObject);
            var q := FindOneQuery(table, queryObject);
            && q.Success?
            && q.value.text == FindOneSql(table, WhereClause(Keys(entries)))
            && ParseWhere(WhereClause(Keys(entries))).Some?
            && var bs := ParseWhere(WhereClause(Keys(entries))).value;
            && |bs| == |q.value.params| == |entries|
            && forall i :: 0 <= i < |bs| ==>
                 && bs[i] == Binding(entries[i].key, i + 1)
                 && q.value.params[bs[i].position - 1] == Get(entries, bs[i].column)
  {
    var entries := OwnEntries(queryObject);
    var columns := Keys(entries);
    assert forall i :: 0 <= i < |columns| ==> columns[i] == entries[i].key;
    forall i | 0 <= i < |entries| ensures Values(entries)[i] == Get(entries, entries[i].key) {
      GetAt(entries, i);
    }
  }

  /**
   * For a held object with keys c1..cn (none containing a comma), `insertOne`
   * sends the column list `c1, ..., cn` and the placeholders `$1, ..., $n`:
   * read back, both lists have n items, item i of the one is column ci, of the
   * other `$i`, and parameter i is the held value for ci.
   */
  lemma InsertBindsInOrder(table: string, held: Value)
    requires held.Obj? && |held.entries| >= 1
    requires DistinctKeys(held.entries)
    requires forall i :: 0 <= i < |held.entries| ==> ',' !in held.entries[i].key
    ensures var columns := Keys(held.entries);
            var q := InsertQuery(table, held);
            var placeholders := Placeholders(|columns|, 1);
            && q.Success?
            && q.value.text == InsertSql(table, Join(columns, ", "), Join(placeholders, ", "))
            && var cs := ParseList(Join(columns, ", "));
            && var ps := ParseList(Join(placeholders, ", "));
            && |cs| == |ps| == |q.value.params| == |held.entries|
            && forall i :: 0 <= i < |cs| ==>
                 && cs[i] == held.entries[i].key
                 && ps[i] == Placeholder(i + 1)
                 && q.value.params[i] == Get(held.entries, cs[i])
  {
    var columns := Keys(held.entries);
    var placeholders := Placeholders(|columns|, 1);
    ListDecodes(columns);
    ListDecodes(placeholders);
    forall i | 0 <= i < |held.entries| ensures Values(held.entries)[i] == Get(held.entries, held.entries[i].key) {
      GetAt(held.entries, i);
    }
  }

  /** After `setModelData(data)`, a key of `data` reads its new value and every other key keeps the old one. */
  lemma SpreadGet(held: Value, data: Value, k: string)
    requires DistinctKeys(OwnEntries(held)) && DistinctKeys(OwnEntries(data))
    ensures Get(Spread(held, data), k) ==
            if k in Keys(OwnEntries(data)) then Get(OwnEntries(data), k) else Get(OwnEntries(held), k)
  {
    CopyIntoEmpty(OwnEntries(held));
    CopyIntoGet(OwnEntries(held), OwnEntries(data), k);
  }

  /** The merged record keeps the held keys first, in place, and appends only the new keys of `data`. */
  lemma SpreadKeys(held: Value, data: Value)
    requires DistinctKeys(OwnEntries(held))
    ensures |OwnEntries(held)| <= |Spread(held, data)|
    ensures Keys(Spread(held, data))[..|OwnEntries(held)|] == Keys(OwnEntries(held))
    ensures forall j :: |OwnEntries(held)| <= j < |Spread(held, data)| ==>
              Keys(Spread(held, data))[j] !in Keys(OwnEntries(held))
  {
    CopyIntoEmpty(OwnEntries(held));
    CopyIntoKeys(OwnEntries(held), OwnEntries(data));
    var r := Spread(held, data);
    var n := |OwnEntries(held)|;
    forall j | n <= j < |r| ensures Keys(r)[j] !in Keys(OwnEntries(held)) {
      forall m | 0 <= m < n ensures Keys(r)[m] != Keys(r)[j] {
        assert r[m].key == Keys(r)[m] && r[j].key == Keys(r)[j];
      }
      assert forall m :: 0 <= m < n ==> Keys(OwnEntries(held))[m] == Keys(r)[m];
    }
  }

  /** Setting data on a fresh model holds exactly that data. */
  lemma SpreadOntoEmpty(data: Value)
    requires data.Obj? && DistinctKeys(data.entries)
    ensures Spread(Obj([]), data) == data.entries
  {
    CopyIntoEmpty(data.entries);
  }
}
