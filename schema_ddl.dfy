/**
 * The DDL generator of `crear_base_datos.py`: attribute types to PostgreSQL
 * types, one column definition per attribute, and the statements `crear_tablas`
 * sends to the database, in the order it sends them.
 */
module SchemaDdl {
  import opened Wrappers
  import opened Strings

  /** A `default` value as the JSON model gives it (numbers restricted to integers). */
  datatype DefaultValue = BoolValue(b: bool) | StringValue(s: string) | IntValue(n: int) | NullValue

  /** One entry of an entity's `atributos`; `Option` fields are keys that may be absent. */
  datatype Attribute = Attribute(
    nombre: string,
    tipoDato: string,
    longitud: Option<int>,
    precision: Option<int>,
    pk: Option<bool>,
    nulo: Option<bool>,
    unique: Option<bool>,
    fk: Option<bool>,
    referencia: Option<string>,
    defaultValue: Option<DefaultValue>)

  /** One entry of the model's `entidades`. */
  datatype Entity = Entity(nombre: string, descripcion: Option<string>, atributos: seq<Attribute>)

  predicate IsPk(a: Attribute) { a.pk.GetOr(false) }
  predicate IsNullable(a: Attribute) { a.nulo.GetOr(true) }
  predicate IsUnique(a: Attribute) { a.unique.GetOr(false) }
  predicate IsFk(a: Attribute) { a.fk.GetOr(false) }

  // ---------------------------------------------------------------------------
  // mapear_tipo_dato

  /** No lower-case ASCII letter: how every PostgreSQL type name is written here. */
  predicate NoLowerAscii(s: string) {
    forall i :: 0 <= i < |s| ==> !IsLowerAscii(s[i])
  }

  lemma TypeWordsUpper()
    ensures NoLowerAscii("TEXT") && NoLowerAscii("INTEGER") && NoLowerAscii("BIGINT")
    ensures NoLowerAscii("DATE") && NoLowerAscii("TIMESTAMP") && NoLowerAscii("TIME")
    ensures NoLowerAscii("BOOLEAN") && NoLowerAscii("VARCHAR(") && NoLowerAscii("DECIMAL(")
    ensures NoLowerAscii(",") && NoLowerAscii(")")
  {
  }

  lemma NoLowerAppend(x: string, y: string)
    requires NoLowerAscii(x) && NoLowerAscii(y)
    ensures NoLowerAscii(x + y)
  {
    forall i | 0 <= i < |x + y| ensures !IsLowerAscii((x + y)[i]) {
      if i >= |x| {
        assert (x + y)[i] == y[i - |x|];
      }
    }
  }

  lemma DecimalHasNoLower(n: int)
    ensures NoLowerAscii(IntToString(n))
  {
    var s := IntToString(n);
    IntToStringRoundTrip(n);
    forall i | 0 <= i < |s| ensures !IsLowerAscii(s[i]) {
      if |s| > 0 && s[0] == '-' {
        if i > 0 {
          assert s[i] == s[1..][i - 1];
        }
      }
    }
  }

  /**
   * The PostgreSQL type of an attribute, chosen on its lower-cased `tipo_dato`.
   * Whatever the spelling of the model, the type comes out in upper case.
   */
  function MapType(a: Attribute): (r: string)
    ensures NoLowerAscii(r)
  {
    TypeWordsUpper();
    var tipo := Lower(a.tipoDato);
    if tipo == "serial" || tipo == "bigserial" then Upper(tipo)
    else if tipo == "varchar" then
      var n := IntToString(a.longitud.GetOr(255));
      DecimalHasNoLower(a.longitud.GetOr(255));
      NoLowerAppend("VARCHAR(", n);
      NoLowerAppend("VARCHAR(" + n, ")");
      "VARCHAR(" + n + ")"
    else if tipo == "text" then "TEXT"
    else if tipo == "decimal" || tipo == "numeric" then
      var l := IntToString(a.longitud.GetOr(10));
      var p := IntToString(a.precision.GetOr(2));
      DecimalHasNoLower(a.longitud.GetOr(10));
      DecimalHasNoLower(a.precision.GetOr(2));
      NoLowerAppend("DECIMAL(", l);
      NoLowerAppend("DECIMAL(" + l, ",");
      NoLowerAppend("DECIMAL(" + l + ",", p);
      NoLowerAppend("DECIMAL(" + l + "," + p, ")");
      "DECIMAL(" + l + "," + p + ")"
    else if tipo == "integer" || tipo == "int" then "INTEGER"
    else if tipo == "bigint" then "BIGINT"
    else if tipo == "date" then "DATE"
    else if tipo == "timestamp" then "TIMESTAMP"
    else if tipo == "time" then "TIME"
    else if tipo == "boolean" || tipo == "bool" then "BOOLEAN"
    else Upper(tipo)
  }

  /** Type names whose PostgreSQL type takes no length or precision, and that type. */
  const FixedTypes: map<string, string> := map[
    "text" := "TEXT",
    "integer" := "INTEGER", "int" := "INTEGER",
    "bigint" := "BIGINT",
    "date" := "DATE", "timestamp" := "TIMESTAMP", "time" := "TIME",
    "boolean" := "BOOLEAN", "bool" := "BOOLEAN"]

  /** Every name the type table recognises, in lower case. */
  const KnownTypes: set<string> :=
    FixedTypes.Keys + {"serial", "bigserial", "varchar", "decimal", "numeric"}

  /** Only the lower-cased type name matters: `VARCHAR`, `VarChar` and `varchar` map alike. */
  lemma MapTypeCaseInsensitive(a: Attribute, b: Attribute)
    requires Lower(a.tipoDato) == Lower(b.tipoDato)
    requires a.longitud == b.longitud && a.precision == b.precision
    ensures MapType(a) == MapType(b)
  {
  }

  lemma LowerOfUpper(s: string)
    ensures Lower(Upper(s)) == Lower(s)
  {
  }

  /** Upper-casing the type name in the model does not change the column type. */
  lemma MapTypeIgnoresUpperCase(a: Attribute)
    ensures MapType(a.(tipoDato := Upper(a.tipoDato))) == MapType(a)
  {
    LowerOfUpper(a.tipoDato);
    MapTypeCaseInsensitive(a.(tipoDato := Upper(a.tipoDato)), a);
  }

  /** Aliases collapse and parameterless types come from a fixed table. */
  lemma MapTypeFixed(a: Attribute)
    requires Lower(a.tipoDato) in FixedTypes
    ensures MapType(a) == FixedTypes[Lower(a.tipoDato)]
    ensures Lower(a.tipoDato) in {"int", "integer"} ==> MapType(a) == "INTEGER"
    ensures Lower(a.tipoDato) in {"bool", "boolean"} ==> MapType(a) == "BOOLEAN"
  {
  }

  /** `varchar` takes `longitud` verbatim, or 255 when it is absent. */
  lemma MapTypeVarchar(a: Attribute)
    requires Lower(a.tipoDato) == "varchar"
    ensures a.longitud.None? ==> MapType(a) == "VARCHAR(255)"
    ensures a.longitud.Some? ==> MapType(a) == "VARCHAR(" + IntToString(a.longitud.value) + ")"
  {
    assert IntToString(255) == "255" by {
      assert NatToString(25) == "25" by { assert NatToString(2) == "2"; }
    }
  }

  /** `decimal` and `numeric` both give DECIMAL, with `longitud`/`precision` verbatim or 10 and 2. */
  lemma MapTypeDecimal(a: Attribute)
    requires Lower(a.tipoDato) in {"decimal", "numeric"}
    ensures a.longitud.None? && a.precision.None? ==> MapType(a) == "DECIMAL(10,2)"
    ensures MapType(a) == "DECIMAL(" + IntToString(a.longitud.GetOr(10)) + "," + IntToString(a.precision.GetOr(2)) + ")"
  {
    assert IntToString(10) == "10" by { assert NatToString(1) == "1"; }
    assert IntToString(2) == "2";
  }

  /** `serial`, `bigserial` and every unrecognised name come back upper-cased and otherwise unchanged. */
  lemma MapTypePassThrough(a: Attribute)
    requires Lower(a.tipoDato) in {"serial", "bigserial"} || Lower(a.tipoDato) !in KnownTypes
    ensures MapType(a) == Upper(a.tipoDato)
  {
    UpperOfLower(a.tipoDato);
  }

  // ---------------------------------------------------------------------------
  // generar_definicion_columna

  /**
   * How a `default` value is written after DEFAULT: booleans as a keyword,
   * integers as their canonical decimal text, strings bare or quoted.
   */
  function DefaultLiteral(v: DefaultValue): (r: string)
    ensures v.BoolValue? ==> r in {"TRUE", "FALSE"}
    ensures v.IntValue? ==> IsDecimal(r) && ParseInt(r) == v.n
    ensures v.StringValue? ==> r == v.s || r == "'" + v.s + "'"
  {
    if v.IntValue? then IntToStringRoundTrip(v.n); IntToString(v.n)
    else if v == StringValue("CURRENT_TIMESTAMP") || v == StringValue("NOW()") then v.s
    else if v.BoolValue? then (if v.b then "TRUE" else "FALSE")
    else if v.StringValue? then "'" + v.s + "'"
    else match v
      case IntValue(n) => IntToString(n)
      case _ => "None"
  }

  /** The SQL functions are written bare, booleans as keywords, other strings quoted without escaping, numbers bare. */
  lemma DefaultLiteralCases(v: DefaultValue)
    ensures v in {StringValue("CURRENT_TIMESTAMP"), StringValue("NOW()")} ==> DefaultLiteral(v) == v.s
    ensures v == BoolValue(true) ==> DefaultLiteral(v) == "TRUE"
    ensures v == BoolValue(false) ==> DefaultLiteral(v) == "FALSE"
    ensures v.StringValue? && v.s !in {"CURRENT_TIMESTAMP", "NOW()"} ==> DefaultLiteral(v) == "'" + v.s + "'"
    ensures v.IntValue? ==> DefaultLiteral(v) == IntToString(v.n)
    ensures v == NullValue ==> DefaultLiteral(v) == "None"
  {
  }

  /** The column definition: name, type, then the constraint suffixes. */
  function ColumnDefinition(a: Attribute): (r: string)
    ensures var head := a.nombre + " " + MapType(a); |head| <= |r| && r[..|head|] == head
    ensures |r| == |a.nombre| + 1 + |MapType(a)| <==> NoClauseRequested(a)
  {
    var head := a.nombre + " " + MapType(a);
    assert (head + Suffixes(a))[..|head|] == head;
    head + Suffixes(a)
  }

  /** The attribute asks for none of PRIMARY KEY, NOT NULL, UNIQUE and DEFAULT. */
  predicate NoClauseRequested(a: Attribute) {
    !IsPk(a) && IsNullable(a) && !IsUnique(a) && a.defaultValue.None?
  }

  /**
   * The suffixes appended one after the other: PRIMARY KEY, NOT NULL, UNIQUE,
   * DEFAULT. Each starts with a space, and there are none exactly when the
   * attribute asks for no clause.
   */
  function Suffixes(a: Attribute): (r: string)
    ensures r == "" <==> NoClauseRequested(a)
    ensures r != "" ==> r[0] == ' '
  {
    (if IsPk(a) then " PRIMARY KEY" else "")
    + ((if !IsNullable(a) && !IsPk(a) then " NOT NULL" else "")
    + ((if IsUnique(a) then " UNIQUE" else "")
    + (if a.defaultValue.Some? then " DEFAULT " + DefaultLiteral(a.defaultValue.value) else "")))
  }

  /** The constraint suffixes a column can carry, in the order they are written. */
  datatype Clause = PrimaryKeyClause | NotNullClause | UniqueClause | DefaultClause

  const ClauseOrder: seq<Clause> := [PrimaryKeyClause, NotNullClause, UniqueClause, DefaultClause]

  /** Whether an attribute asks for a clause. */
  predicate Requests(a: Attribute, c: Clause) {
    match c
    case PrimaryKeyClause => IsPk(a)
    case NotNullClause => !IsNullable(a) && !IsPk(a)
    case UniqueClause => IsUnique(a)
    case DefaultClause => a.defaultValue.Some?
  }

  function ClauseText(a: Attribute, c: Clause): string {
    match c
    case PrimaryKeyClause => " PRIMARY KEY"
    case NotNullClause => " NOT NULL"
    case UniqueClause => " UNIQUE"
    case DefaultClause => if a.defaultValue.Some? then " DEFAULT " + DefaultLiteral(a.defaultValue.value) else ""
  }

  /** The requested clauses, kept in `ClauseOrder`. */
  function Clauses(a: Attribute, order: seq<Clause>): seq<Clause>
    decreases |order|
  {
    if order == [] then []
    else (if Requests(a, order[0]) then [order[0]] else []) + Clauses(a, order[1..])
  }

  function ClauseTexts(a: Attribute, cs: seq<Clause>): string
    decreases |cs|
  {
    if cs == [] then "" else ClauseText(a, cs[0]) + ClauseTexts(a, cs[1..])
  }

  /** The text of the clauses an order list leaves in place, clause by clause. */
  function OptionalTexts(a: Attribute, order: seq<Clause>): string
    decreases |order|
  {
    if order == [] then ""
    else (if Requests(a, order[0]) then ClauseText(a, order[0]) else "") + OptionalTexts(a, order[1..])
  }

  lemma {:induction false} ClauseTextsFiltered(a: Attribute, order: seq<Clause>)
    ensures ClauseTexts(a, Clauses(a, order)) == OptionalTexts(a, order)
    decreases |order|
  {
    if order != [] {
      ClauseTextsFiltered(a, order[1..]);
      var tail := Clauses(a, order[1..]);
      if Requests(a, order[0]) {
        assert Clauses(a, order) == [order[0]] + tail;
        assert ClauseTexts(a, Clauses(a, order)) == ClauseText(a, order[0]) + ClauseTexts(a, tail);
      } else {
        assert Clauses(a, order) == tail;
        assert OptionalTexts(a, order) == "" + OptionalTexts(a, order[1..]) == OptionalTexts(a, order[1..]);
      }
    }
  }

  lemma OptionalTextsCons(a: Attribute, c: Clause, rest: seq<Clause>)
    ensures OptionalTexts(a, [c] + rest) == (if Requests(a, c) then ClauseText(a, c) else "") + OptionalTexts(a, rest)
  {
    assert ([c] + rest)[0] == c && ([c] + rest)[1..] == rest;
  }

  lemma OptionalTextsOfClauseOrder(a: Attribute)
    ensures OptionalTexts(a, ClauseOrder) == Suffixes(a)
  {
    var d := if a.defaultValue.Some? then " DEFAULT " + DefaultLiteral(a.defaultValue.value) else "";
    assert ClauseOrder == [PrimaryKeyClause] + ([NotNullClause] + ([UniqueClause] + [DefaultClause]));
    assert [DefaultClause] == [DefaultClause] + [];
    OptionalTextsCons(a, DefaultClause, []);
    assert OptionalTexts(a, [DefaultClause]) == d + "" == d;
    OptionalTextsCons(a, UniqueClause, [DefaultClause]);
    OptionalTextsCons(a, NotNullClause, [UniqueClause] + [DefaultClause]);
    OptionalTextsCons(a, PrimaryKeyClause, [NotNullClause] + ([UniqueClause] + [DefaultClause]));
  }

  lemma ClausesOfClauseOrder(a: Attribute)
    ensures Clauses(a, ClauseOrder) ==
      (if IsPk(a) then [PrimaryKeyClause] else [])
      + (if !IsNullable(a) && !IsPk(a) then [NotNullClause] else [])
      + (if IsUnique(a) then [UniqueClause] else [])
      + (if a.defaultValue.Some? then [DefaultClause] else [])
  {
    var order := ClauseOrder;
    assert order[1..][1..][1..][1..] == [];
  }

  /** A column definition is `<nombre> <type>` followed by the text of the requested clauses, in `ClauseOrder`. */
  lemma ColumnDefinitionClauses(a: Attribute)
    ensures ColumnDefinition(a) == a.nombre + " " + MapType(a) + ClauseTexts(a, Clauses(a, ClauseOrder))
  {
    ClauseTextsFiltered(a, ClauseOrder);
    OptionalTextsOfClauseOrder(a);
  }

  /** NOT NULL is requested exactly when `nulo` is false and `pk` is not true, so it never meets PRIMARY KEY. */
  lemma ColumnClauseSelection(a: Attribute)
    ensures NotNullClause in Clauses(a, ClauseOrder) <==> !IsNullable(a) && !IsPk(a)
    ensures PrimaryKeyClause in Clauses(a, ClauseOrder) <==> IsPk(a)
    ensures !(PrimaryKeyClause in Clauses(a, ClauseOrder) && NotNullClause in Clauses(a, ClauseOrder))
    ensures UniqueClause in Clauses(a, ClauseOrder) <==> IsUnique(a)
    ensures DefaultClause in Clauses(a, ClauseOrder) <==> a.defaultValue.Some?
  {
    ClausesMembers(a, ClauseOrder);
    var order := ClauseOrder;
    assert order[0] == PrimaryKeyClause && order[1] == NotNullClause;
    assert order[2] == UniqueClause && order[3] == DefaultClause;
  }

  /** Position of a clause in `ClauseOrder`. */
  function Rank(c: Clause): nat {
    match c
    case PrimaryKeyClause => 0
    case NotNullClause => 1
    case UniqueClause => 2
    case DefaultClause => 3
  }

  /** A clause is kept exactly when it is in the order list and the attribute asks for it. */
  lemma {:induction false} ClausesMembers(a: Attribute, order: seq<Clause>)
    ensures forall c :: c in Clauses(a, order) <==> c in order && Requests(a, c)
    decreases |order|
  {
    if order != [] {
      ClausesMembers(a, order[1..]);
      assert order == [order[0]] + order[1..];
    }
  }

  predicate RankSorted(cs: seq<Clause>) {
    forall i, j :: 0 <= i < j < |cs| ==> Rank(cs[i]) < Rank(cs[j])
  }

  lemma ConsRankSorted(h: Clause, t: seq<Clause>)
    requires RankSorted(t)
    requires forall c :: c in t ==> Rank(h) < Rank(c)
    ensures RankSorted([h] + t)
  {
    var cs := [h] + t;
    forall i, j | 0 <= i < j < |cs|
      ensures Rank(cs[i]) < Rank(cs[j])
    {
      assert cs[j] == t[j - 1];
      if i > 0 {
        assert cs[i] == t[i - 1];
      }
    }
  }

  /** Filtering keeps the order: from an order by increasing rank come clauses by increasing rank. */
  lemma {:induction false} ClausesSorted(a: Attribute, order: seq<Clause>)
    requires RankSorted(order)
    ensures RankSorted(Clauses(a, order))
    decreases |order|
  {
    if order != [] {
      var rest := order[1..];
      assert RankSorted(rest) by {
        forall i, j | 0 <= i < j < |rest| ensures Rank(rest[i]) < Rank(rest[j]) {
          assert rest[i] == order[i + 1] && rest[j] == order[j + 1];
        }
      }
      ClausesSorted(a, rest);
      ClausesMembers(a, rest);
      var tail := Clauses(a, rest);
      forall c | c in tail
        ensures Rank(order[0]) < Rank(c)
      {
        var j :| 0 <= j < |rest| && rest[j] == c;
        assert order[j + 1] == c;
      }
      if Requests(a, order[0]) {
        assert Clauses(a, order) == [order[0]] + tail;
        ConsRankSorted(order[0], tail);
      } else {
        assert Clauses(a, order) == tail;
      }
    }
  }

  /** The clauses of a column definition appear in the order PRIMARY KEY, NOT NULL, UNIQUE, DEFAULT. */
  lemma ColumnClausesOrdered(a: Attribute)
    ensures RankSorted(Clauses(a, ClauseOrder))
  {
    ClausesSorted(a, ClauseOrder);
  }

  // ---------------------------------------------------------------------------
  // crear_tablas

  /** A record of the `foreign_keys` list: table, column, referenced table. */
  datatype ForeignKey = ForeignKey(tabla: string, columna: string, referencia: string)

  /** A statement `crear_tablas` executes. */
  datatype Statement =
    | CreateTable(tabla: string, columnas: seq<string>)
    | CommentOnTable(tabla: string, descripcion: string)
    | AddForeignKey(fk: ForeignKey)

  function ConstraintName(fk: ForeignKey): string {
    "fk_" + fk.tabla + "_" + fk.columna
  }

  /**
   * The SQL text of a statement, its layout reduced to single spaces between
   * tokens; every statement is terminated by a semicolon.
   */
  function Sql(st: Statement): (r: string)
    ensures |r| > 0 && r[|r| - 1] == ';'
  {
    match st
    case CreateTable(t, cols) => "CREATE TABLE IF NOT EXISTS " + t + " (" + Join(cols, ", ") + ");"
    case CommentOnTable(t, d) => "COMMENT ON TABLE " + t + " IS '" + d + "';"
    case AddForeignKey(fk) =>
      "ALTER TABLE " + fk.tabla + " ADD CONSTRAINT " + ConstraintName(fk)
      + " FOREIGN KEY (" + fk.columna + ") REFERENCES " + fk.referencia
      + " ON DELETE CASCADE ON UPDATE CASCADE;"
  }

  lemma ConcatEnds(h: string, m: string, t: string)
    ensures var x := h + m + t;
      && |h| + |t| <= |x| && x[..|h|] == h && x[|x| - |t|..] == t
      && x[|h|..|x| - |t|] == m
  {
    var x := h + m + t;
    assert x[..|h|] == h;
    assert x[|x| - |t|..] == t;
    assert x[|h|..|x| - |t|] == m;
  }

  /** The text `x` is `head`, then `middle`, then `tail`, each in its place. */
  predicate Framed(x: string, head: string, middle: string, tail: string) {
    && |head| + |tail| <= |x|
    && x[..|head|] == head
    && x[|head|..|x| - |tail|] == middle
    && x[|x| - |tail|..] == tail
  }

  /** A CREATE TABLE names its table and lists exactly the column definitions, comma-separated, in parentheses. */
  lemma CreateTableSql(t: string, cols: seq<string>)
    ensures Framed(Sql(CreateTable(t, cols)), "CREATE TABLE IF NOT EXISTS " + t + " (", Join(cols, ", "), ");")
  {
    ConcatEnds("CREATE TABLE IF NOT EXISTS " + t + " (", Join(cols, ", "), ");");
  }

  /** A table comment names its table and quotes the description as given. */
  lemma CommentOnTableSql(t: string, d: string)
    ensures Framed(Sql(CommentOnTable(t, d)), "COMMENT ON TABLE " + t + " IS '", d, "';")
  {
    ConcatEnds("COMMENT ON TABLE " + t + " IS '", d, "';");
  }

  /**
   * Each foreign key becomes `ALTER TABLE <tabla> ADD CONSTRAINT fk_<tabla>_<columna>`,
   * then `FOREIGN KEY (<columna>) REFERENCES <referencia>`, then both cascades.
   */
  lemma ForeignKeySql(fk: ForeignKey)
    ensures Framed(Sql(AddForeignKey(fk)),
      "ALTER TABLE " + fk.tabla + " ADD CONSTRAINT " + ConstraintName(fk),
      " FOREIGN KEY (" + fk.columna + ") REFERENCES " + fk.referencia,
      " ON DELETE CASCADE ON UPDATE CASCADE;")
  {
    var head := "ALTER TABLE " + fk.tabla + " ADD CONSTRAINT " + ConstraintName(fk);
    var middle := " FOREIGN KEY (" + fk.columna + ") REFERENCES " + fk.referencia;
    var tail := " ON DELETE CASCADE ON UPDATE CASCADE;";
    assert Sql(AddForeignKey(fk)) == head + " FOREIGN KEY (" + fk.columna + ") REFERENCES " + fk.referencia + tail;
    AppendThree(head, " FOREIGN KEY (" + fk.columna, ") REFERENCES ", fk.referencia);
    ConcatEnds(head, middle, tail);
  }

  lemma AppendThree(h: string, b: string, c: string, d: string)
    ensures h + b + c + d == h + (b + c + d)
  {
  }

  /** Every attribute flagged `fk` names the table it references. */
  predicate HasReferences(attrs: seq<Attribute>) {
    forall j :: 0 <= j < |attrs| && IsFk(attrs[j]) ==> attrs[j].referencia.Some?
  }

  predicate AllHaveReferences(es: seq<Entity>) {
    forall i :: 0 <= i < |es| ==> HasReferences(es[i].atributos)
  }

  /** The foreign-key records of one entity's attributes, in attribute order. */
  function AttributeForeignKeys(tabla: string, attrs: seq<Attribute>): seq<ForeignKey>
    requires HasReferences(attrs)
    decreases |attrs|
  {
    if attrs == [] then []
    else
      var a := attrs[|attrs| - 1];
      AttributeForeignKeys(tabla, attrs[..|attrs| - 1])
      + (if IsFk(a) then [ForeignKey(tabla, a.nombre, a.referencia.value)] else [])
  }

  /** The `foreign_keys` list after the first phase: entity by entity, attribute by attribute. */
  function ForeignKeys(es: seq<Entity>): seq<ForeignKey>
    requires AllHaveReferences(es)
    decreases |es|
  {
    if es == [] then []
    else ForeignKeys(es[..|es| - 1]) + AttributeForeignKeys(es[|es| - 1].nombre, es[|es| - 1].atributos)
  }

  function ColumnDefinitions(attrs: seq<Attribute>): seq<string> {
    seq(|attrs|, j requires 0 <= j < |attrs| => ColumnDefinition(attrs[j]))
  }

  /** The statements of phase one for one entity: its CREATE TABLE, then its comment when it has a description. */
  function TableStatements(e: Entity): seq<Statement> {
    [CreateTable(e.nombre, ColumnDefinitions(e.atributos))]
    + (if e.descripcion.GetOr("") != "" then [CommentOnTable(e.nombre, e.descripcion.value)] else [])
  }

  function TablePhase(es: seq<Entity>): seq<Statement>
    decreases |es|
  {
    if es == [] then [] else TablePhase(es[..|es| - 1]) + TableStatements(es[|es| - 1])
  }

  function ForeignKeyStatements(fks: seq<ForeignKey>): seq<Statement> {
    seq(|fks|, k requires 0 <= k < |fks| => AddForeignKey(fks[k]))
  }

  /** Everything `crear_tablas` executes, in order: all tables first, then all foreign keys. */
  function Plan(es: seq<Entity>): seq<Statement>
    requires AllHaveReferences(es)
  {
    TablePhase(es) + ForeignKeyStatements(ForeignKeys(es))
  }

  function Texts(sts: seq<Statement>): seq<string> {
    seq(|sts|, k requires 0 <= k < |sts| => Sql(sts[k]))
  }

  lemma TextsAppend(a: seq<Statement>, b: seq<Statement>)
    ensures Texts(a + b) == Texts(a) + Texts(b)
  {
  }

  lemma ForeignKeysSnoc(es: seq<Entity>, i: nat)
    requires i < |es| && AllHaveReferences(es)
    ensures AllHaveReferences(es[..i]) && AllHaveReferences(es[..i + 1])
    ensures ForeignKeys(es[..i + 1]) == ForeignKeys(es[..i]) + AttributeForeignKeys(es[i].nombre, es[i].atributos)
    ensures TablePhase(es[..i + 1]) == TablePhase(es[..i]) + TableStatements(es[i])
  {
    assert es[..i + 1][..i] == es[..i];
  }

  lemma AttributeForeignKeysSnoc(tabla: string, attrs: seq<Attribute>, j: nat)
    requires j < |attrs| && HasReferences(attrs)
    ensures HasReferences(attrs[..j]) && HasReferences(attrs[..j + 1])
    ensures AttributeForeignKeys(tabla, attrs[..j + 1]) == AttributeForeignKeys(tabla, attrs[..j])
      + (if IsFk(attrs[j]) then [ForeignKey(tabla, attrs[j].nombre, attrs[j].referencia.value)] else [])
  {
    assert attrs[..j + 1][..j] == attrs[..j];
  }

  /** Foreign keys are collected entity by entity: the records of a concatenation are the concatenated records. */
  lemma {:induction false} ForeignKeysAppend(xs: seq<Entity>, ys: seq<Entity>)
    requires AllHaveReferences(xs) && AllHaveReferences(ys)
    ensures AllHaveReferences(xs + ys)
    ensures ForeignKeys(xs + ys) == ForeignKeys(xs) + ForeignKeys(ys)
    decreases |ys|
  {
    if ys == [] {
      assert xs + ys == xs;
    } else {
      var ys' := ys[..|ys| - 1];
      assert (xs + ys)[..|xs + ys| - 1] == xs + ys';
      assert AllHaveReferences(ys');
      ForeignKeysAppend(xs, ys');
    }
  }

  /** Within one entity, attribute by attribute: exactly one record per attribute flagged `fk`. */
  lemma {:induction false} AttributeForeignKeysAppend(tabla: string, xs: seq<Attribute>, ys: seq<Attribute>)
    requires HasReferences(xs) && HasReferences(ys)
    ensures HasReferences(xs + ys)
    ensures AttributeForeignKeys(tabla, xs + ys) == AttributeForeignKeys(tabla, xs) + AttributeForeignKeys(tabla, ys)
    decreases |ys|
  {
    if ys == [] {
      assert xs + ys == xs;
    } else {
      var ys' := ys[..|ys| - 1];
      assert (xs + ys)[..|xs + ys| - 1] == xs + ys';
      assert HasReferences(ys');
      AttributeForeignKeysAppend(tabla, xs, ys');
    }
  }

  /** A single entity contributes the records of its own attributes; a single attribute, one record exactly when it is a foreign key. */
  lemma ForeignKeysSingle(e: Entity, a: Attribute)
    requires HasReferences(e.atributos) && (IsFk(a) ==> a.referencia.Some?)
    ensures AllHaveReferences([e]) && HasReferences([a])
    ensures ForeignKeys([e]) == AttributeForeignKeys(e.nombre, e.atributos)
    ensures AttributeForeignKeys(e.nombre, [a])
      == if IsFk(a) then [ForeignKey(e.nombre, a.nombre, a.referencia.value)] else []
  {
    assert [e][..0] == [];
    assert [a][..0] == [];
  }

  /** Phase one issues no foreign-key statement. */
  lemma {:induction false} TablePhaseHasNoForeignKeys(es: seq<Entity>)
    ensures forall k :: 0 <= k < |TablePhase(es)| ==> !TablePhase(es)[k].AddForeignKey?
    decreases |es|
  {
    if es != [] {
      TablePhaseHasNoForeignKeys(es[..|es| - 1]);
    }
  }

  /** Phase one creates every entity's table, with that entity's column definitions. */
  lemma {:induction false} TablePhaseCreatesEveryTable(es: seq<Entity>)
    ensures forall i :: 0 <= i < |es| ==>
      CreateTable(es[i].nombre, ColumnDefinitions(es[i].atributos)) in TablePhase(es)
    decreases |es|
  {
    if es != [] {
      var init := es[..|es| - 1];
      TablePhaseCreatesEveryTable(init);
      assert TablePhase(es) == TablePhase(init) + TableStatements(es[|es| - 1]);
      forall i | 0 <= i < |es|
        ensures CreateTable(es[i].nombre, ColumnDefinitions(es[i].atributos)) in TablePhase(es)
      {
        if i < |es| - 1 {
          assert es[i] == init[i];
        } else {
          assert TableStatements(es[i])[0] == CreateTable(es[i].nombre, ColumnDefinitions(es[i].atributos));
        }
      }
    }
  }

  /**
   * Foreign keys come last: a statement of the plan is an ALTER TABLE ... ADD
   * CONSTRAINT exactly when it comes after all of phase one, so no foreign key
   * precedes a CREATE TABLE, and there is one such statement per collected record.
   */
  lemma ForeignKeysAfterTables(es: seq<Entity>)
    requires AllHaveReferences(es)
    ensures |Plan(es)| == |TablePhase(es)| + |ForeignKeys(es)|
    ensures forall k :: 0 <= k < |Plan(es)| ==> (Plan(es)[k].AddForeignKey? <==> k >= |TablePhase(es)|)
    ensures forall k :: |TablePhase(es)| <= k < |Plan(es)| ==>
      Plan(es)[k] == AddForeignKey(ForeignKeys(es)[k - |TablePhase(es)|])
  {
    TablePhaseHasNoForeignKeys(es);
  }

  lemma ColumnDefinitionsSnoc(attrs: seq<Attribute>, j: nat)
    requires j < |attrs|
    ensures ColumnDefinitions(attrs[..j + 1]) == ColumnDefinitions(attrs[..j]) + [ColumnDefinition(attrs[j])]
  {
  }

  /** The inner loop of `crear_tablas`: one column definition per attribute, and the foreign keys met on the way. */
  method EntityColumns(tabla: string, attrs: seq<Attribute>) returns (columnas: seq<string>, foreignKeys: seq<ForeignKey>)
    requires HasReferences(attrs)
    ensures columnas == ColumnDefinitions(attrs)
    ensures foreignKeys == AttributeForeignKeys(tabla, attrs)
  {
    columnas := [];
    foreignKeys := [];
    for j := 0 to |attrs|
      invariant HasReferences(attrs[..j])
      invariant columnas == ColumnDefinitions(attrs[..j])
      invariant foreignKeys == AttributeForeignKeys(tabla, attrs[..j])
    {
      var atributo := attrs[j];
      AttributeForeignKeysSnoc(tabla, attrs, j);
      ColumnDefinitionsSnoc(attrs, j);
      columnas := columnas + [ColumnDefinition(atributo)];
      if IsFk(atributo) {
        foreignKeys := foreignKeys + [ForeignKey(tabla, atributo.nombre, atributo.referencia.value)];
      }
    }
    assert attrs[..|attrs|] == attrs;
  }

  lemma TextsSnoc(a: seq<Statement>, st: Statement)
    ensures Texts(a + [st]) == Texts(a) + [Sql(st)]
  {
    TextsAppend(a, [st]);
  }

  /** The texts of one entity's phase-one statements: its CREATE TABLE, then its comment when it has one. */
  lemma TableStatementsTexts(e: Entity)
    ensures Texts(TableStatements(e)) ==
      [Sql(CreateTable(e.nombre, ColumnDefinitions(e.atributos)))]
      + (if e.descripcion.GetOr("") != "" then [Sql(CommentOnTable(e.nombre, e.descripcion.GetOr("")))] else [])
  {
  }

  lemma TablePhaseTextsSnoc(es: seq<Entity>, i: nat)
    requires i < |es|
    ensures Texts(TablePhase(es[..i + 1])) == Texts(TablePhase(es[..i]))
      + [Sql(CreateTable(es[i].nombre, ColumnDefinitions(es[i].atributos)))]
      + (if es[i].descripcion.GetOr("") != "" then [Sql(CommentOnTable(es[i].nombre, es[i].descripcion.GetOr("")))] else [])
  {
    assert es[..i + 1][..i] == es[..i];
    assert TablePhase(es[..i + 1]) == TablePhase(es[..i]) + TableStatements(es[i]);
    TextsAppend(TablePhase(es[..i]), TableStatements(es[i]));
    TableStatementsTexts(es[i]);
  }

  /**
   * Step one of `crear_tablas`: each entity's CREATE TABLE and comment are
   * executed in entity order, while the foreign keys are collected for later.
   */
  method CreateTablePhase(entities: seq<Entity>) returns (executed: seq<string>, foreignKeys: seq<ForeignKey>)
    requires AllHaveReferences(entities)
    ensures executed == Texts(TablePhase(entities))
    ensures foreignKeys == ForeignKeys(entities)
  {
    foreignKeys := [];
    executed := [];
    for i := 0 to |entities|
      invariant AllHaveReferences(entities[..i])
      invariant foreignKeys == ForeignKeys(entities[..i])
      invariant executed == Texts(TablePhase(entities[..i]))
    {
      var entidad := entities[i];
      ForeignKeysSnoc(entities, i);
      TablePhaseTextsSnoc(entities, i);
      var columnas, found := EntityColumns(entidad.nombre, entidad.atributos);
      foreignKeys := foreignKeys + found;
      executed := executed + [Sql(CreateTable(entidad.nombre, columnas))];
      var descripcion := entidad.descripcion.GetOr("");
      if descripcion != "" {
        executed := executed + [Sql(CommentOnTable(entidad.nombre, descripcion))];
      }
    }
    assert entities[..|entities|] == entities;
  }

  lemma ForeignKeyTextsSnoc(tables: seq<Statement>, fks: seq<ForeignKey>, k: nat)
    requires k < |fks|
    ensures Texts(tables + ForeignKeyStatements(fks[..k + 1]))
      == Texts(tables + ForeignKeyStatements(fks[..k])) + [Sql(AddForeignKey(fks[k]))]
  {
    assert ForeignKeyStatements(fks[..k + 1]) == ForeignKeyStatements(fks[..k]) + [AddForeignKey(fks[k])];
    assert tables + ForeignKeyStatements(fks[..k + 1]) == tables + ForeignKeyStatements(fks[..k]) + [AddForeignKey(fks[k])];
    TextsSnoc(tables + ForeignKeyStatements(fks[..k]), AddForeignKey(fks[k]));
  }

  /** The statement texts `crear_tablas` hands to the cursor, in execution order. */
  method CreateTables(entities: seq<Entity>) returns (executed: seq<string>)
    requires AllHaveReferences(entities)
    ensures executed == Texts(Plan(entities))
  {
    var foreignKeys;
    executed, foreignKeys := CreateTablePhase(entities);
    for k := 0 to |foreignKeys|
      invariant executed == Texts(TablePhase(entities) + ForeignKeyStatements(foreignKeys[..k]))
    {
      ForeignKeyTextsSnoc(TablePhase(entities), foreignKeys, k);
      executed := executed + [Sql(AddForeignKey(foreignKeys[k]))];
    }
    assert foreignKeys[..|foreignKeys|] == foreignKeys;
  }
}
