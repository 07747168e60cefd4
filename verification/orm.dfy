/** The object-relational mapper of `www/orm.py`: column declarations, the
    metaclass that compiles a class body into a table schema with four SQL
    statements, entity instances as attribute maps with lazily resolved
    defaults, and the argument lists `save`, `update` and `remove` send to
    the database.  The driver itself is a parameter: a function from the
    statement actually sent (placeholders already rewritten) and its
    arguments to the rows it returns or the row count it reports. */
module Orm {
  import opened Wrappers
  import opened Text

  // ------------------------------------------------------------------ values

  /** A column value as Python sees it; `Null` is `None`.  Floats are kept as
      opaque reals: no floating-point rounding is modelled. */
  datatype Value = Null | Str(s: string) | Int(i: int) | Bool(b: bool) | Real(r: real)

  /** The zero-argument callables used as defaults: `next_id` and `time.time`. */
  datatype GenKind = NextId | Clock

  /** A column default.  `Fixed(Null)` is `default=None`, i.e. no default. */
  datatype Default = Fixed(value: Value) | Generated(kind: GenKind)

  /** `Field(name, column_type, primary_key, default)`. */
  datatype Field = Field(name: Option<string>, columnType: string, primaryKey: bool, default: Default)

  function StringField(name: Option<string> := None, primaryKey: bool := false,
                       default: Default := Fixed(Null), ddl: string := "varchar(100)"): Field
  {
    Field(name, ddl, primaryKey, default)
  }

  function BooleanField(name: Option<string> := None, default: Default := Fixed(Bool(false))): Field
  {
    Field(name, "boolean", false, default)
  }

  function IntegerField(name: Option<string> := None, primaryKey: bool := false,
                        default: Default := Fixed(Int(0))): Field
  {
    Field(name, "bigint", primaryKey, default)
  }

  function FloatField(name: Option<string> := None, primaryKey: bool := false,
                      default: Default := Fixed(Real(0.0))): Field
  {
    Field(name, "real", primaryKey, default)
  }

  function TextField(name: Option<string> := None, default: Default := Fixed(Null)): Field
  {
    Field(name, "text", false, default)
  }

  // ------------------------------------------------------------ class bodies

  /** A class attribute: a column declaration, or anything else, kept by its
      text (only `__table__` is ever read). */
  datatype Attr = FieldAttr(field: Field) | PlainAttr(text: string)

  datatype Decl = Decl(key: string, attr: Attr)

  /** A class statement: its name and its namespace in declaration order. */
  datatype ClassDecl = ClassDecl(name: string, attrs: seq<Decl>)

  datatype Column = Column(key: string, field: Field)

  predicate Distinct(xs: seq<string>) {
    forall i, j :: 0 <= i < j < |xs| ==> xs[i] != xs[j]
  }

  function Keys(attrs: seq<Decl>): seq<string> {
    seq(|attrs|, i requires 0 <= i < |attrs| => attrs[i].key)
  }

  /** A class namespace is a dictionary: no attribute name occurs twice. */
  predicate Namespace(attrs: seq<Decl>) {
    Distinct(Keys(attrs))
  }

  predicate IsKey(d: Decl) {
    d.attr.FieldAttr? && d.attr.field.primaryKey
  }

  predicate IsNonKey(d: Decl) {
    d.attr.FieldAttr? && !d.attr.field.primaryKey
  }

  /** Names of the primary-key columns, in declaration order. */
  function KeyNames(attrs: seq<Decl>): seq<string> {
    if |attrs| == 0 then []
    else KeyNames(attrs[..|attrs| - 1]) + (if IsKey(attrs[|attrs| - 1]) then [attrs[|attrs| - 1].key] else [])
  }

  /** Names of the other columns, in declaration order. */
  function NonKeyNames(attrs: seq<Decl>): seq<string> {
    if |attrs| == 0 then []
    else NonKeyNames(attrs[..|attrs| - 1]) + (if IsNonKey(attrs[|attrs| - 1]) then [attrs[|attrs| - 1].key] else [])
  }

  /** Every column declaration, in declaration order. */
  function FieldColumns(attrs: seq<Decl>): seq<Column> {
    if |attrs| == 0 then []
    else
      var d := attrs[|attrs| - 1];
      FieldColumns(attrs[..|attrs| - 1]) + (if d.attr.FieldAttr? then [Column(d.key, d.attr.field)] else [])
  }

  /** The attributes left on the class once the columns are taken out. */
  function PlainAttrs(attrs: seq<Decl>): seq<Decl> {
    if |attrs| == 0 then []
    else
      var d := attrs[|attrs| - 1];
      PlainAttrs(attrs[..|attrs| - 1]) + (if d.attr.PlainAttr? then [d] else [])
  }

  /** The first declaration of `key` among the columns (`mappings.get(key)`). */
  function Lookup(columns: seq<Column>, key: string): Option<Field> {
    if |columns| == 0 then None
    else if columns[0].key == key then Some(columns[0].field)
    else Lookup(columns[1..], key)
  }

  // --------------------------------------------------------------- compiling

  function DuplicateKeyMessage(key: string): string {
    "Duplicate primary key for field: " + key
  }

  const NoKeyMessage := "Primary key not found."

  datatype Scan = Scan(columns: seq<Column>, fields: seq<string>, primaryKey: Option<string>)

  /** The loop over the class namespace: collect the columns, split off the
      primary key, and stop at the second primary key. */
  function ScanAttrs(attrs: seq<Decl>): (r: Result<Scan, string>)
    ensures r.Failure? <==> |KeyNames(attrs)| >= 2
    ensures r.Failure? ==> r.error == DuplicateKeyMessage(KeyNames(attrs)[1])
    ensures r.Success? ==>
      && r.value.columns == FieldColumns(attrs)
      && r.value.fields == NonKeyNames(attrs)
      && r.value.primaryKey == (if |KeyNames(attrs)| == 0 then None else Some(KeyNames(attrs)[0]))
  {
    if |attrs| == 0 then Success(Scan([], [], None))
    else
      var st :- ScanAttrs(attrs[..|attrs| - 1]);
      var d := attrs[|attrs| - 1];
      match d.attr
      case PlainAttr(_) => Success(st)
      case FieldAttr(f) =>
        var columns := st.columns + [Column(d.key, f)];
        if !f.primaryKey then Success(Scan(columns, st.fields + [d.key], st.primaryKey))
        else if st.primaryKey.Some? then Failure(DuplicateKeyMessage(d.key))
        else Success(Scan(columns, st.fields, Some(d.key)))
  }

  /** `attrs.get('__table__', None) or name`. */
  function TableName(c: ClassDecl): string {
    match FirstAttr(c.attrs, "__table__")
    case Some(PlainAttr(t)) => if t != "" then t else c.name
    case _ => c.name
  }

  function FirstAttr(attrs: seq<Decl>, key: string): Option<Attr> {
    if |attrs| == 0 then None
    else if attrs[0].key == key then Some(attrs[0].attr)
    else FirstAttr(attrs[1..], key)
  }

  function Quote(s: string): string {
    "`" + s + "`"
  }

  function QuoteAll(xs: seq<string>): (r: seq<string>)
    ensures |r| == |xs|
  {
    seq(|xs|, i requires 0 <= i < |xs| => Quote(xs[i]))
  }

  /** `create_args_string(n)`: `n` question marks separated by `', '`. */
  function ArgsString(n: nat): (r: string)
    ensures Count('?', r) == n
    ensures n > 0 ==> Count(',', r) == n - 1
  {
    var marks := seq(n, _ => "?");
    assert n > 0 ==> Count('?', Join(", ", marks)) == n && Count(',', Join(", ", marks)) == n - 1 by {
      if n > 0 {
        CountJoin('?', ", ", marks, 1);
        CountJoin(',', ", ", marks, 0);
      }
    }
    Join(", ", marks)
  }

  /** The column list of the select statement, corrected: primary key
      first, then the other columns. */
  function SelectColumns(pk: string, fields: seq<string>): string {
    Join(", ", QuoteAll([pk] + fields))
  }

  /** The same list as the source writes it, with a fixed `, ` after the key. */
  function SelectColumnsAsWritten(pk: string, fields: seq<string>): string {
    Quote(pk) + ", " + Join(", ", QuoteAll(fields))
  }

  /** The column list of the insert statement, corrected: the other
      columns, then the key. */
  function InsertColumns(pk: string, fields: seq<string>): string {
    Join(", ", QuoteAll(fields + [pk]))
  }

  /** The same list as the source writes it, with a fixed `, ` before the key. */
  function InsertColumnsAsWritten(pk: string, fields: seq<string>): string {
    Join(", ", QuoteAll(fields)) + ", " + Quote(pk)
  }

  /** `mappings.get(f).name or f`: the column a non-key attribute updates. */
  function ColumnName(columns: seq<Column>, key: string): (col: string)
    ensures var f := Lookup(columns, key);
      && (f.Some? && f.value.name.Some? && f.value.name.value != "" ==> col == f.value.name.value)
      && (f.None? || f.value.name.None? || f.value.name.value == "" ==> col == key)
  {
    match Lookup(columns, key)
    case Some(f) => if f.name.Some? && f.name.value != "" then f.name.value else key
    case None => key
  }

  /** `__select__` as the metaclass writes it. */
  function SelectSql(table: string, pk: string, fields: seq<string>): string {
    "select " + SelectColumnsAsWritten(pk, fields) + " from " + Quote(table)
  }

  /** `__insert__` as the metaclass writes it. */
  function InsertSql(table: string, pk: string, fields: seq<string>): string {
    "insert into " + Quote(table) + " (" + InsertColumnsAsWritten(pk, fields) + ") values (" + ArgsString(|fields| + 1) + ")"
  }

  /** `__select__` built from the corrected column list. */
  function CorrectedSelectSql(table: string, pk: string, fields: seq<string>): string {
    "select " + SelectColumns(pk, fields) + " from " + Quote(table)
  }

  /** `__insert__` built from the corrected column list. */
  function CorrectedInsertSql(table: string, pk: string, fields: seq<string>): string {
    "insert into " + Quote(table) + " (" + InsertColumns(pk, fields) + ") values (" + ArgsString(|fields| + 1) + ")"
  }

  /** The `set` clauses of `__update__`, one per non-key attribute in order. */
  function Assignments(columns: seq<Column>, fields: seq<string>): (sets: seq<string>)
    ensures |sets| == |fields|
    ensures forall i :: 0 <= i < |fields| ==> sets[i] == Quote(ColumnName(columns, fields[i])) + "=?"
  {
    seq(|fields|, i requires 0 <= i < |fields| => Quote(ColumnName(columns, fields[i])) + "=?")
  }

  function UpdateSql(table: string, pk: string, columns: seq<Column>, fields: seq<string>): string {
    "update " + Quote(table) + " set " + Join(", ", Assignments(columns, fields)) + " where " + Quote(pk) + "=?"
  }

  function DeleteSql(table: string, pk: string): string {
    "delete from " + Quote(table) + " where " + Quote(pk) + "=?"
  }

  /** What the metaclass stores on a mapped class: `__table__`,
      `__mappings__`, `__primary_key__`, `__fields__` and the four statements. */
  datatype Schema = Schema(
    table: string,
    columns: seq<Column>,
    primaryKey: string,
    fields: seq<string>,
    select: string,
    insert: string,
    update: string,
    delete: string)

  /** The class `ModelMetaclass.__new__` returns: `Model` itself untouched, or
      a mapped class whose column attributes were moved into its schema. */
  datatype ModelClass =
    | BaseModel(name: string, attrs: seq<Decl>)
    | MappedModel(name: string, schema: Schema, attrs: seq<Decl>)

  /** `ModelMetaclass.__new__`. */
  function Compile(c: ClassDecl): (r: Result<ModelClass, string>)
    ensures c.name == "Model" ==> r == Success(BaseModel(c.name, c.attrs))
    ensures c.name != "Model" ==> (r.Success? <==> |KeyNames(c.attrs)| == 1)
    ensures c.name != "Model" && |KeyNames(c.attrs)| == 0 ==> r == Failure(NoKeyMessage)
    ensures c.name != "Model" && |KeyNames(c.attrs)| >= 2 ==>
      r == Failure(DuplicateKeyMessage(KeyNames(c.attrs)[1]))
    ensures c.name != "Model" && r.Success? ==>
      && r.value.MappedModel?
      && r.value.schema.table == TableName(c)
      && r.value.schema.primaryKey == KeyNames(c.attrs)[0]
      && r.value.schema.fields == NonKeyNames(c.attrs)
      && r.value.schema.columns == FieldColumns(c.attrs)
      && r.value.attrs == PlainAttrs(c.attrs)
    ensures c.name != "Model" && r.Success? ==>
      var s := r.value.schema;
      && s.select == SelectSql(s.table, s.primaryKey, s.fields)
      && s.insert == InsertSql(s.table, s.primaryKey, s.fields)
      && s.update == UpdateSql(s.table, s.primaryKey, s.columns, s.fields)
      && s.delete == DeleteSql(s.table, s.primaryKey)
  {
    if c.name == "Model" then Success(BaseModel(c.name, c.attrs))
    else
      var table := TableName(c);
      var st :- ScanAttrs(c.attrs);
      if st.primaryKey.None? then Failure(NoKeyMessage)
      else
        var pk := st.primaryKey.value;
        var schema := Schema(
          table, st.columns, pk, st.fields,
          SelectSql(table, pk, st.fields),
          InsertSql(table, pk, st.fields),
          UpdateSql(table, pk, st.columns, st.fields),
          DeleteSql(table, pk));
        Success(MappedModel(c.name, schema, PlainAttrs(c.attrs)))
  }

  /** Once there is at least one non-key column the written lists and the
      corrected ones coincide, so every model with such a column compiles to
      the statements the source produces. */
  lemma {:induction false} ColumnListsAgreeWithFields(pk: string, fields: seq<string>)
    requires |fields| > 0
    ensures SelectColumnsAsWritten(pk, fields) == SelectColumns(pk, fields)
    ensures InsertColumnsAsWritten(pk, fields) == InsertColumns(pk, fields)
  {
    JoinSnoc(QuoteAll(fields), Quote(pk));
    assert QuoteAll(fields + [pk]) == QuoteAll(fields) + [Quote(pk)];
    assert QuoteAll([pk] + fields) == [Quote(pk)] + QuoteAll(fields);
    assert ([Quote(pk)] + QuoteAll(fields))[1..] == QuoteAll(fields);
  }

  lemma {:induction false} JoinSnoc(xs: seq<string>, x: string)
    requires |xs| > 0
    ensures Join(", ", xs + [x]) == Join(", ", xs) + ", " + x
  {
    if |xs| > 1 {
      assert (xs + [x])[1..] == xs[1..] + [x];
      JoinSnoc(xs[1..], x);
    } else {
      assert xs + [x] == [xs[0], x];
    }
  }

  /** The corrected statements: the key alone when there is no other
      column, and otherwise exactly the statements as written. */
  lemma {:induction false} CorrectedStatements(table: string, pk: string, fields: seq<string>)
    ensures |fields| == 0 ==>
      && CorrectedSelectSql(table, pk, fields) == "select " + Quote(pk) + " from " + Quote(table)
      && CorrectedInsertSql(table, pk, fields) == "insert into " + Quote(table) + " (" + Quote(pk) + ") values (?)"
    ensures |fields| > 0 ==>
      && CorrectedSelectSql(table, pk, fields) == SelectSql(table, pk, fields)
      && CorrectedInsertSql(table, pk, fields) == InsertSql(table, pk, fields)
  {
    if |fields| == 0 {
      assert QuoteAll([pk] + fields) == [Quote(pk)];
      assert QuoteAll(fields + [pk]) == [Quote(pk)];
      assert ArgsString(1) == "?";
    } else {
      ColumnListsAgreeWithFields(pk, fields);
    }
  }

  /** `ModelMetaclass.__new__` with the select and insert statements built
      from the corrected column lists; everything else as `Compile`. */
  function CompileCorrected(c: ClassDecl): (r: Result<ModelClass, string>)
    ensures r.Success? <==> Compile(c).Success?
    ensures r.Failure? ==> r == Compile(c)
    ensures r.Success? && !r.value.MappedModel? ==> r == Compile(c)
    ensures r.Success? && r.value.MappedModel? ==>
      && Compile(c).value.MappedModel?
      && r.value.name == Compile(c).value.name
      && r.value.attrs == Compile(c).value.attrs
      && var s := Compile(c).value.schema;
         r.value.schema == s.(select := CorrectedSelectSql(s.table, s.primaryKey, s.fields),
                              insert := CorrectedInsertSql(s.table, s.primaryKey, s.fields))
    ensures r.Success? && r.value.MappedModel? && |r.value.schema.fields| == 0 ==>
      var s := r.value.schema;
      && s.select == "select " + Quote(s.primaryKey) + " from " + Quote(s.table)
      && s.insert == "insert into " + Quote(s.table) + " (" + Quote(s.primaryKey) + ") values (?)"
    ensures r.Success? && r.value.MappedModel? && |r.value.schema.fields| > 0 ==> r == Compile(c)
  {
    match Compile(c)
    case Success(MappedModel(name, s, attrs)) =>
      CorrectedStatements(s.table, s.primaryKey, s.fields);
      Success(MappedModel(name, s.(select := CorrectedSelectSql(s.table, s.primaryKey, s.fields),
                                   insert := CorrectedInsertSql(s.table, s.primaryKey, s.fields)), attrs))
    case other => other
  }

  // ------------------------------------------------------------- entities

  /** A model instance is a dictionary from attribute name to value. */
  type Entity = map<string, Value>

  type Row = map<string, Value>

  /** `Model.__getattr__`: a missing key is an `AttributeError`. */
  function GetAttr(e: Entity, key: string): Result<Value, string> {
    if key in e then Success(e[key])
    else Failure("'Model' object has no attribute '" + key + "'")
  }

  /** `Model.getValue`, i.e. `getattr(self, key, None)`. */
  function GetValue(e: Entity, key: string): (v: Value)
    ensures GetAttr(e, key).Success? ==> v == GetAttr(e, key).value
    ensures GetAttr(e, key).Failure? ==> v == Null
  {
    if key in e then e[key] else Null
  }

  /** The generators' outputs: the `n`-th generator call made by the model
      (counting from any fixed origin) returns `oracle(kind, n)`. */
  type Oracle = (GenKind, nat) -> Value

  datatype Resolved = Resolved(value: Value, entity: Entity, draws: nat)

  /** `Model.getValueOrDefault`: `draws` counts the generator calls made so far. */
  function GetValueOrDefault(s: Schema, e: Entity, key: string, oracle: Oracle, draws: nat): (r: Resolved)
    requires Lookup(s.columns, key).Some?
    ensures GetValue(r.entity, key) == r.value
    ensures r.entity - {key} == e - {key}
    ensures GetValue(e, key) != Null ==> r == Resolved(GetValue(e, key), e, draws)
    ensures GetValue(e, key) == Null ==>
      match Lookup(s.columns, key).value.default
      case Fixed(Null) => r == Resolved(Null, e, draws)
      case Fixed(v) => r.value == v && r.draws == draws
      case Generated(g) => r.value == oracle(g, draws) && r.draws == draws + 1
  {
    var value := GetValue(e, key);
    if value != Null then Resolved(value, e, draws)
    else
      match Lookup(s.columns, key).value.default
      case Fixed(v) =>
        if v == Null then Resolved(Null, e, draws) else Resolved(v, e[key := v], draws)
      case Generated(g) =>
        var v := oracle(g, draws);
        Resolved(v, e[key := v], draws + 1)
  }

  /** How many of `keys` would call a generator default in `e`. */
  function GeneratorCalls(s: Schema, e: Entity, keys: seq<string>): nat
    requires forall i :: 0 <= i < |keys| ==> Lookup(s.columns, keys[i]).Some?
  {
    if |keys| == 0 then 0
    else
      (if GetValue(e, keys[0]) == Null && Lookup(s.columns, keys[0]).value.default.Generated? then 1 else 0)
      + GeneratorCalls(s, e, keys[1..])
  }

  lemma {:induction false} GeneratorCallsFrame(s: Schema, e: Entity, e': Entity, keys: seq<string>)
    requires forall i :: 0 <= i < |keys| ==> Lookup(s.columns, keys[i]).Some?
    requires forall i :: 0 <= i < |keys| ==> GetValue(e, keys[i]) == GetValue(e', keys[i])
    ensures GeneratorCalls(s, e, keys) == GeneratorCalls(s, e', keys)
  {
    if |keys| > 0 {
      GeneratorCallsFrame(s, e, e', keys[1..]);
    }
  }

  datatype Resolution = Resolution(args: seq<Value>, entity: Entity, draws: nat)

  /** The value a default supplies when the generator counter stands at `n`. */
  function DefaultValue(d: Default, oracle: Oracle, n: nat): Value {
    match d
    case Fixed(v) => v
    case Generated(g) => oracle(g, n)
  }

  /** `list(map(self.getValueOrDefault, keys))`, evaluated left to right. */
  function ResolveAll(s: Schema, e: Entity, keys: seq<string>, oracle: Oracle, draws: nat): (r: Resolution)
    requires forall i :: 0 <= i < |keys| ==> Lookup(s.columns, keys[i]).Some?
    ensures |r.args| == |keys|
    decreases |keys|
  {
    if |keys| == 0 then Resolution([], e, draws)
    else
      var first := GetValueOrDefault(s, e, keys[0], oracle, draws);
      var rest := ResolveAll(s, first.entity, keys[1..], oracle, first.draws);
      Resolution([first.value] + rest.args, rest.entity, rest.draws)
  }

  /** What resolving a list of keys does to the instance: other attributes
      are untouched and values already set are sent unchanged. */
  lemma {:induction false} ResolveAllFrame(s: Schema, e: Entity, keys: seq<string>, oracle: Oracle, draws: nat)
    requires forall i :: 0 <= i < |keys| ==> Lookup(s.columns, keys[i]).Some?
    ensures var r := ResolveAll(s, e, keys, oracle, draws);
      && (forall k :: k !in keys ==> GetValue(r.entity, k) == GetValue(e, k))
      && (forall i :: 0 <= i < |keys| && GetValue(e, keys[i]) != Null ==> r.args[i] == GetValue(e, keys[i]))
    decreases |keys|
  {
    if |keys| > 0 {
      var first := GetValueOrDefault(s, e, keys[0], oracle, draws);
      var rest := ResolveAll(s, first.entity, keys[1..], oracle, first.draws);
      ResolveAllFrame(s, first.entity, keys[1..], oracle, first.draws);
      var r := ResolveAll(s, e, keys, oracle, draws);
      assert r == Resolution([first.value] + rest.args, rest.entity, rest.draws);
      forall k | k != keys[0]
        ensures GetValue(first.entity, k) == GetValue(e, k)
      {
        ResolveFrame(e, first.entity, keys[0], k);
      }
      forall i | 0 <= i < |keys| && GetValue(e, keys[i]) != Null
        ensures r.args[i] == GetValue(e, keys[i])
      {
        if i > 0 {
          assert keys[1..][i - 1] == keys[i];
          if keys[i] != keys[0] {
            assert GetValue(first.entity, keys[i]) == GetValue(e, keys[i]);
          } else {
            assert GetValue(first.entity, keys[0]) == GetValue(e, keys[0]);
          }
        }
      }
    }
  }

  /** With distinct keys the instance ends up holding exactly the values
      sent, and the generator counter advances once per generator default
      used. */
  lemma {:induction false} ResolveAllDistinct(s: Schema, e: Entity, keys: seq<string>, oracle: Oracle, draws: nat)
    requires forall i :: 0 <= i < |keys| ==> Lookup(s.columns, keys[i]).Some?
    requires Distinct(keys)
    ensures var r := ResolveAll(s, e, keys, oracle, draws);
      && (forall i :: 0 <= i < |keys| ==> r.args[i] == GetValue(r.entity, keys[i]))
      && r.draws == draws + GeneratorCalls(s, e, keys)
    decreases |keys|
  {
    if |keys| > 0 {
      var first := GetValueOrDefault(s, e, keys[0], oracle, draws);
      var rest := ResolveAll(s, first.entity, keys[1..], oracle, first.draws);
      assert Distinct(keys[1..]);
      assert keys[0] !in keys[1..];
      ResolveAllDistinct(s, first.entity, keys[1..], oracle, first.draws);
      ResolveAllFrame(s, first.entity, keys[1..], oracle, first.draws);
      var r := ResolveAll(s, e, keys, oracle, draws);
      assert r == Resolution([first.value] + rest.args, rest.entity, rest.draws);
      forall i | 0 <= i < |keys[1..]| ensures GetValue(first.entity, keys[1..][i]) == GetValue(e, keys[1..][i]) {
        ResolveFrame(e, first.entity, keys[0], keys[1..][i]);
      }
      GeneratorCallsFrame(s, e, first.entity, keys[1..]);
      forall i | 0 <= i < |keys| ensures r.args[i] == GetValue(r.entity, keys[i]) {
        if i > 0 {
          assert keys[1..][i - 1] == keys[i];
        }
      }
    }
  }

  /** Resolving one key leaves every other key's value alone. */
  lemma {:induction false} ResolveFrame(e: Entity, e1: Entity, key: string, k: string)
    requires e1 - {key} == e - {key}
    requires k != key
    ensures GetValue(e1, k) == GetValue(e, k)
  {
    assert k in e1 <==> k in e1 - {key};
    assert k in e <==> k in e - {key};
  }

  /** The arguments `save` should send, computed without threading the
      instance: a set attribute's value, or else its default, with the
      generator counter advanced once per generator default used. */
  function Expected(s: Schema, e: Entity, keys: seq<string>, oracle: Oracle, draws: nat): seq<Value>
    requires forall i :: 0 <= i < |keys| ==> Lookup(s.columns, keys[i]).Some?
  {
    if |keys| == 0 then []
    else
      var d := Lookup(s.columns, keys[0]).value.default;
      if GetValue(e, keys[0]) != Null then [GetValue(e, keys[0])] + Expected(s, e, keys[1..], oracle, draws)
      else if d.Generated? then [oracle(d.kind, draws)] + Expected(s, e, keys[1..], oracle, draws + 1)
      else [d.value] + Expected(s, e, keys[1..], oracle, draws)
  }

  lemma {:induction false} ExpectedFrame(s: Schema, e: Entity, e': Entity, keys: seq<string>, oracle: Oracle, draws: nat)
    requires forall i :: 0 <= i < |keys| ==> Lookup(s.columns, keys[i]).Some?
    requires forall i :: 0 <= i < |keys| ==> GetValue(e, keys[i]) == GetValue(e', keys[i])
    ensures Expected(s, e, keys, oracle, draws) == Expected(s, e', keys, oracle, draws)
  {
    if |keys| > 0 {
      ExpectedFrame(s, e, e', keys[1..], oracle, draws);
      ExpectedFrame(s, e, e', keys[1..], oracle, draws + 1);
    }
  }

  /** Resolving distinct keys one after another sends exactly the values of
      the reference: each unset attribute gets its default, and each
      generator default sees the counter advanced by those before it. */
  lemma {:induction false} ResolveAllMatchesExpected(s: Schema, e: Entity, keys: seq<string>, oracle: Oracle, draws: nat)
    requires forall i :: 0 <= i < |keys| ==> Lookup(s.columns, keys[i]).Some?
    requires Distinct(keys)
    ensures ResolveAll(s, e, keys, oracle, draws).args == Expected(s, e, keys, oracle, draws)
    decreases |keys|
  {
    if |keys| > 0 {
      var first := GetValueOrDefault(s, e, keys[0], oracle, draws);
      ResolveAllMatchesExpected(s, first.entity, keys[1..], oracle, first.draws);
      forall i | 0 <= i < |keys[1..]| ensures GetValue(first.entity, keys[1..][i]) == GetValue(e, keys[1..][i]) {
        assert keys[1..][i] == keys[i + 1];
        ResolveFrame(e, first.entity, keys[0], keys[1..][i]);
      }
      ExpectedFrame(s, first.entity, e, keys[1..], oracle, first.draws);
    }
  }

  // ------------------------------------------------------------ the driver

  /** `sql.replace('?', '%s')`, done by `select` and `execute` before the
      statement reaches the driver. */
  function Rewrite(sql: string): (r: string)
    ensures '?' !in r
    ensures |r| == |sql| + Count('?', sql)
  {
    if |sql| == 0 then ""
    else (if sql[0] == '?' then "%s" else [sql[0]]) + Rewrite(sql[1..])
  }

  /** Turns each `%s` back into `?`. */
  function Restore(s: string): string {
    if |s| == 0 then ""
    else if |s| >= 2 && s[0] == '%' && s[1] == 's' then "?" + Restore(s[2..])
    else [s[0]] + Restore(s[1..])
  }

  /** On a statement without `%`, the rewrite loses nothing: every `%s` in
      what the driver receives stands for exactly one `?`. */
  lemma {:induction false} RestoreRewrite(sql: string)
    requires '%' !in sql
    ensures Restore(Rewrite(sql)) == sql
  {
    if |sql| > 0 {
      var rest := Rewrite(sql[1..]);
      RestoreRewrite(sql[1..]);
      if sql[0] == '?' {
        assert ("%s" + rest)[2..] == rest;
      } else {
        assert ([sql[0]] + rest)[1..] == rest;
      }
    }
  }

  /** The database: the rows a read statement returns. */
  type Database = (string, seq<Value>) -> seq<Row>

  /** The database: the affected-row count a write statement reports. */
  type Executor = (string, seq<Value>) -> int

  datatype Query = Query(sql: string, args: seq<Value>, rows: seq<Row>)

  /** `select(sql, args, size)`: `fetchmany(size)` when `size` is truthy,
      otherwise `fetchall()`. */
  function Select(sql: string, args: seq<Value>, size: Option<nat>, db: Database): (q: Query)
    ensures q.sql == Rewrite(sql) && q.args == args
    ensures q.rows <= db(q.sql, args)
    ensures size.Some? && size.value > 0 ==>
      |q.rows| == if |db(q.sql, args)| < size.value then |db(q.sql, args)| else size.value
    ensures size.None? || size.value == 0 ==> q.rows == db(q.sql, args)
  {
    var driverSql := Rewrite(sql);
    var all := db(driverSql, args);
    var rows := if size.Some? && size.value > 0 && size.value < |all| then all[..size.value] else all;
    Query(driverSql, args, rows)
  }

  /** A write as `execute` performs it, autocommitted: the statement sent,
      its arguments, the reported row count, and whether the caller logs the
      "affected rows" warning.  No write raises for a row-count mismatch. */
  datatype Write = Write(sql: string, args: seq<Value>, affected: int, warned: bool)

  function Execute(sql: string, args: seq<Value>, exec: Executor): Write {
    var driverSql := Rewrite(sql);
    var affected := exec(driverSql, args);
    Write(driverSql, args, affected, affected != 1)
  }

  // ------------------------------------------------------- repository calls

  /** What `ModelMetaclass` guarantees of a schema it built from a proper
      namespace: every written attribute has a column and none repeats. */
  predicate WellFormed(s: Schema) {
    && (forall i :: 0 <= i < |s.fields| ==> Lookup(s.columns, s.fields[i]).Some?)
    && Lookup(s.columns, s.primaryKey).Some?
    && Distinct(s.fields + [s.primaryKey])
  }

  function SaveKeys(s: Schema): seq<string> {
    s.fields + [s.primaryKey]
  }

  datatype Saved = Saved(write: Write, entity: Entity, draws: nat)

  /** `Model.save`: resolve defaults for the non-key attributes and then the
      key, and run the insert. */
  function Save(s: Schema, e: Entity, oracle: Oracle, draws: nat, exec: Executor): (r: Saved)
    requires WellFormed(s)
    ensures |r.write.args| == |s.fields| + 1
    ensures forall i :: 0 <= i < |s.fields| ==> r.write.args[i] == GetValue(r.entity, s.fields[i])
    ensures r.write.args[|s.fields|] == GetValue(r.entity, s.primaryKey)
    ensures forall i :: 0 <= i < |s.fields| + 1 && GetValue(e, SaveKeys(s)[i]) != Null ==>
      r.write.args[i] == GetValue(e, SaveKeys(s)[i])
    ensures forall k :: k !in SaveKeys(s) ==> GetValue(r.entity, k) == GetValue(e, k)
    ensures r.draws == draws + GeneratorCalls(s, e, SaveKeys(s))
    ensures r.write.args == Expected(s, e, SaveKeys(s), oracle, draws)
    ensures r.write.sql == Rewrite(s.insert)
    ensures r.write.warned <==> r.write.affected != 1
  {
    var keys := SaveKeys(s);
    assert forall i :: 0 <= i < |keys| ==> Lookup(s.columns, keys[i]).Some? by {
      forall i | 0 <= i < |keys| ensures Lookup(s.columns, keys[i]).Some? {
        if i < |s.fields| {
          assert keys[i] == s.fields[i];
        }
      }
    }
    var res := ResolveAll(s, e, keys, oracle, draws);
    assert forall i :: 0 <= i < |s.fields| ==> keys[i] == s.fields[i];
    assert
      && (forall k :: k !in keys ==> GetValue(res.entity, k) == GetValue(e, k))
      && (forall i :: 0 <= i < |keys| && GetValue(e, keys[i]) != Null ==> res.args[i] == GetValue(e, keys[i]))
      && (forall i :: 0 <= i < |keys| ==> res.args[i] == GetValue(res.entity, keys[i]))
      && res.draws == draws + GeneratorCalls(s, e, keys)
      && res.args == Expected(s, e, keys, oracle, draws)
    by {
      ResolveAllFrame(s, e, keys, oracle, draws);
      ResolveAllDistinct(s, e, keys, oracle, draws);
      ResolveAllMatchesExpected(s, e, keys, oracle, draws);
    }
    Saved(Execute(s.insert, res.args, exec), res.entity, res.draws)
  }

  /** `Model.update`: current values only, no defaults, the instance untouched. */
  function Update(s: Schema, e: Entity, exec: Executor): (w: Write)
    ensures |w.args| == |s.fields| + 1
    ensures forall i :: 0 <= i < |s.fields| ==> w.args[i] == GetValue(e, s.fields[i])
    ensures w.args[|s.fields|] == GetValue(e, s.primaryKey)
    ensures w.sql == Rewrite(s.update)
    ensures w.warned <==> w.affected != 1
  {
    var args := seq(|s.fields|, i requires 0 <= i < |s.fields| => GetValue(e, s.fields[i])) + [GetValue(e, s.primaryKey)];
    Execute(s.update, args, exec)
  }

  /** `Model.remove`: delete by the current primary-key value. */
  function Remove(s: Schema, e: Entity, exec: Executor): (w: Write)
    ensures w.args == [GetValue(e, s.primaryKey)]
    ensures w.sql == Rewrite(s.delete)
    ensures w.warned <==> w.affected != 1
  {
    Execute(s.delete, [GetValue(e, s.primaryKey)], exec)
  }

  function FindSql(s: Schema): string {
    s.select + " where " + Quote(s.primaryKey) + "=?"
  }

  /** `Model.find(pk)`: at most one row, `None` when there is none. */
  function Find(s: Schema, pk: Value, db: Database): (r: Option<Entity>)
    ensures var rows := db(Rewrite(FindSql(s)), [pk]);
      && (r.None? <==> |rows| == 0)
      && (r.Some? ==> r.value == rows[0])
  {
    var q := Select(FindSql(s), [pk], Some(1), db);
    if |q.rows| == 0 then None else Some(q.rows[0])
  }

  function FindNumberSql(table: string, selectField: string, where: Option<string>): string {
    "select " + selectField + " _num_ from " + Quote(table)
      + (if where.Some? && where.value != "" then " where " + where.value else "")
  }

  /** `Model.findNumber`: the `_num_` column of the first row, `None` when
      there is no row; a row without that column is a `KeyError`. */
  function FindNumber(s: Schema, selectField: string, where: Option<string>, args: seq<Value>,
                      db: Database): (r: Result<Option<Value>, string>)
    ensures var rows := db(Rewrite(FindNumberSql(s.table, selectField, where)), args);
      && (|rows| == 0 ==> r == Success(None))
      && (|rows| > 0 && "_num_" in rows[0] ==> r == Success(Some(rows[0]["_num_"])))
      && (|rows| > 0 && "_num_" !in rows[0] ==> r.Failure?)
  {
    var q := Select(FindNumberSql(s.table, selectField, where), args, Some(1), db);
    if |q.rows| == 0 then Success(None)
    else if "_num_" in q.rows[0] then Success(Some(q.rows[0]["_num_"]))
    else Failure("KeyError: '_num_'")
  }
}

/** Facts about compiled schemas: what the metaclass output satisfies, and
    how the argument lists of the repository calls line up with the
    placeholders of the statements they run. */
module OrmFacts {
  import opened Wrappers
  import opened Text
  import opened Orm

  lemma {:induction false} LookupAppend(columns: seq<Column>, c: Column, key: string)
    ensures Lookup(columns + [c], key).Some? <==> Lookup(columns, key).Some? || c.key == key
  {
    if |columns| > 0 {
      assert (columns + [c])[1..] == columns[1..] + [c];
      LookupAppend(columns[1..], c, key);
    }
  }

  /** What an unset attribute saves as.  A declared fixed default is saved
      and, unless it is `None`, written back; a generated one is drawn once.
      With the constructors' own defaults that is nothing for a string or
      text column (whatever its width or key flag), `False`, `0` or `0.0`
      for the others, without calling a generator; boolean and text columns
      can never be the key. */
  lemma {:induction false} FieldDefaultsOnSave(s: Schema, e: Entity, key: string, name: Option<string>,
                                               primaryKey: bool, ddl: string, oracle: Oracle, draws: nat)
    requires GetValue(e, key) == Null
    ensures Lookup(s.columns, key).Some? && Lookup(s.columns, key).value.default.Fixed? ==>
      var v := Lookup(s.columns, key).value.default.value;
      var r := GetValueOrDefault(s, e, key, oracle, draws);
      && r.value == v && r.draws == draws
      && (v == Null ==> r.entity == e)
      && (v != Null ==> r.entity == e[key := v])
    ensures Lookup(s.columns, key).Some? && Lookup(s.columns, key).value.default.Generated? ==>
      var g := Lookup(s.columns, key).value.default.kind;
      var r := GetValueOrDefault(s, e, key, oracle, draws);
      r.value == oracle(g, draws) && r.draws == draws + 1 && GetValue(r.entity, key) == oracle(g, draws)
    ensures Lookup(s.columns, key) == Some(StringField(name, primaryKey, Fixed(Null), ddl)) ==>
      GetValueOrDefault(s, e, key, oracle, draws) == Resolved(Null, e, draws)
    ensures Lookup(s.columns, key) == Some(TextField(name)) ==>
      GetValueOrDefault(s, e, key, oracle, draws) == Resolved(Null, e, draws)
    ensures Lookup(s.columns, key) == Some(BooleanField(name)) ==>
      var r := GetValueOrDefault(s, e, key, oracle, draws);
      r.value == Bool(false) && r.draws == draws && GetValue(r.entity, key) == Bool(false)
    ensures Lookup(s.columns, key) == Some(IntegerField(name, primaryKey)) ==>
      var r := GetValueOrDefault(s, e, key, oracle, draws);
      r.value == Int(0) && r.draws == draws && GetValue(r.entity, key) == Int(0)
    ensures Lookup(s.columns, key) == Some(FloatField(name, primaryKey)) ==>
      var r := GetValueOrDefault(s, e, key, oracle, draws);
      r.value == Real(0.0) && r.draws == draws && GetValue(r.entity, key) == Real(0.0)
    ensures forall d :: !BooleanField(name, d).primaryKey && !TextField(name, d).primaryKey
  {
  }

  /** Every name the scan collects is the name of a column declaration of the
      right kind, and can be looked up among the columns. */
  lemma {:induction false} ScannedNames(attrs: seq<Decl>)
    ensures forall k :: k in NonKeyNames(attrs) ==>
      exists i :: 0 <= i < |attrs| && attrs[i].key == k && IsNonKey(attrs[i])
    ensures forall k :: k in KeyNames(attrs) ==>
      exists i :: 0 <= i < |attrs| && attrs[i].key == k && IsKey(attrs[i])
    ensures forall k :: k in NonKeyNames(attrs) ==> Lookup(FieldColumns(attrs), k).Some?
    ensures forall k :: k in KeyNames(attrs) ==> Lookup(FieldColumns(attrs), k).Some?
  {
    if |attrs| > 0 {
      var pre := attrs[..|attrs| - 1];
      var d := attrs[|attrs| - 1];
      ScannedNames(pre);
      assert NonKeyNames(attrs) == NonKeyNames(pre) + (if IsNonKey(d) then [d.key] else []);
      assert KeyNames(attrs) == KeyNames(pre) + (if IsKey(d) then [d.key] else []);
      assert FieldColumns(attrs) == FieldColumns(pre) + (if d.attr.FieldAttr? then [Column(d.key, d.attr.field)] else []);
      forall k | k in NonKeyNames(attrs) || k in KeyNames(attrs)
        ensures Lookup(FieldColumns(attrs), k).Some?
      {
        if d.attr.FieldAttr? {
          LookupAppend(FieldColumns(pre), Column(d.key, d.attr.field), k);
          if k != d.key {
            assert k in NonKeyNames(pre) || k in KeyNames(pre);
          }
        } else {
          assert FieldColumns(attrs) == FieldColumns(pre);
          assert k in NonKeyNames(pre) || k in KeyNames(pre);
        }
      }
      forall k | k in NonKeyNames(attrs)
        ensures exists i :: 0 <= i < |attrs| && attrs[i].key == k && IsNonKey(attrs[i])
      {
        if k in NonKeyNames(pre) {
          var i :| 0 <= i < |pre| && pre[i].key == k && IsNonKey(pre[i]);
          assert attrs[i] == pre[i];
        } else {
          assert attrs[|attrs| - 1].key == k;
        }
      }
      forall k | k in KeyNames(attrs)
        ensures exists i :: 0 <= i < |attrs| && attrs[i].key == k && IsKey(attrs[i])
      {
        if k in KeyNames(pre) {
          var i :| 0 <= i < |pre| && pre[i].key == k && IsKey(pre[i]);
          assert attrs[i] == pre[i];
        } else {
          assert attrs[|attrs| - 1].key == k;
        }
      }
    }
  }

  lemma {:induction false} NonKeyNamesDistinct(attrs: seq<Decl>)
    requires Namespace(attrs)
    ensures Distinct(NonKeyNames(attrs))
  {
    if |attrs| > 0 {
      var pre := attrs[..|attrs| - 1];
      var d := attrs[|attrs| - 1];
      assert Keys(pre) == Keys(attrs)[..|attrs| - 1];
      NonKeyNamesDistinct(pre);
      if IsNonKey(d) {
        ScannedNames(pre);
        forall i | 0 <= i < |pre| ensures pre[i].key != d.key {
          assert Keys(attrs)[i] == pre[i].key && Keys(attrs)[|attrs| - 1] == d.key;
        }
        assert d.key !in NonKeyNames(pre);
      }
    }
  }

  /** A class with a proper namespace compiles to a well-formed schema: the
      written attributes are distinct and all have columns. */
  lemma {:induction false} CompiledSchemaWellFormed(c: ClassDecl)
    requires Namespace(c.attrs)
    requires Compile(c).Success? && Compile(c).value.MappedModel?
    ensures WellFormed(Compile(c).value.schema)
  {
    var s := Compile(c).value.schema;
    ScannedNames(c.attrs);
    NonKeyNamesDistinct(c.attrs);
    assert s.primaryKey in KeyNames(c.attrs);
    var i :| 0 <= i < |c.attrs| && c.attrs[i].key == s.primaryKey && IsKey(c.attrs[i]);
    forall j | 0 <= j < |s.fields|
      ensures s.fields[j] != s.primaryKey
    {
      assert s.fields[j] in NonKeyNames(c.attrs);
      var i' :| 0 <= i' < |c.attrs| && c.attrs[i'].key == s.fields[j] && IsNonKey(c.attrs[i']);
      assert Keys(c.attrs)[i] == s.primaryKey && Keys(c.attrs)[i'] == s.fields[j];
    }
    forall j | 0 <= j < |s.fields|
      ensures Lookup(s.columns, s.fields[j]).Some?
    {
      assert s.fields[j] in NonKeyNames(c.attrs);
    }
  }

  predicate Unmarked(c: char, s: Schema) {
    && c !in s.table
    && c !in s.primaryKey
    && (forall i :: 0 <= i < |s.fields| ==> c !in s.fields[i])
    && (forall i :: 0 <= i < |s.fields| ==> c !in ColumnName(s.columns, s.fields[i]))
  }

  lemma {:induction false} QuoteCount(c: char, s: string)
    requires c != '`'
    ensures Count(c, Quote(s)) == Count(c, s)
  {
    CountAppend(c, "`", s);
    CountAppend(c, "`" + s, "`");
  }

  lemma {:induction false} QuotedListCount(c: char, xs: seq<string>)
    requires c != '`' && c != ',' && c != ' '
    requires forall i :: 0 <= i < |xs| ==> c !in xs[i]
    ensures Count(c, Join(", ", QuoteAll(xs))) == 0
  {
    if |xs| > 0 {
      var q := QuoteAll(xs);
      forall i | 0 <= i < |xs| ensures Count(c, q[i]) == 0 {
        CountAbsent(c, xs[i]);
        QuoteCount(c, xs[i]);
      }
      CountAbsent(c, ", ");
      CountJoin(c, ", ", q, 0);
    }
  }

  lemma {:induction false} Count3(c: char, a: string, b: string, d: string)
    ensures Count(c, a + b + d) == Count(c, a) + Count(c, b) + Count(c, d)
  {
    CountAppend(c, a, b);
    CountAppend(c, a + b, d);
  }

  lemma {:induction false} SelectMarks(s: Schema)
    requires Unmarked('?', s)
    ensures Count('?', SelectSql(s.table, s.primaryKey, s.fields)) == 0
  {
    var cols := SelectColumnsAsWritten(s.primaryKey, s.fields);
    CountAbsent('?', s.primaryKey);
    QuoteCount('?', s.primaryKey);
    CountAbsent('?', ", ");
    QuotedListCount('?', s.fields);
    Count3('?', Quote(s.primaryKey), ", ", Join(", ", QuoteAll(s.fields)));
    CountAbsent('?', s.table);
    QuoteCount('?', s.table);
    CountAbsent('?', "select ");
    CountAbsent('?', " from ");
    Count3('?', "select ", cols, " from ");
    CountAppend('?', "select " + cols + " from ", Quote(s.table));
  }

  /** The key condition `find` appends carries the one placeholder. */
  lemma {:induction false} KeyConditionMarks(pk: string)
    requires '?' !in pk
    ensures Count('?', " where " + Quote(pk) + "=?") == 1
  {
    CountAbsent('?', pk);
    QuoteCount('?', pk);
    CountAbsent('?', " where ");
    assert Count('?', "=?") == 1;
    Count3('?', " where ", Quote(pk), "=?");
  }

  lemma {:induction false} FindMarks(s: Schema)
    requires Unmarked('?', s)
    requires Count('?', s.select) == 0
    ensures Count('?', FindSql(s)) == 1
  {
    KeyConditionMarks(s.primaryKey);
    assert FindSql(s) == s.select + (" where " + Quote(s.primaryKey) + "=?");
    CountAppend('?', s.select, " where " + Quote(s.primaryKey) + "=?");
  }

  /** The literal text around an identifier holds no placeholder. */
  lemma {:induction false} FramedMarks(pre: string, x: string, post: string)
    requires '?' !in pre && '?' !in x && '?' !in post
    ensures Count('?', pre + Quote(x) + post) == 0
  {
    CountAbsent('?', pre);
    CountAbsent('?', x);
    CountAbsent('?', post);
    QuoteCount('?', x);
    Count3('?', pre, Quote(x), post);
  }

  /** The written insert column list carries no placeholder. */
  lemma {:induction false} InsertColumnsUnmarked(pk: string, fields: seq<string>)
    requires '?' !in pk && forall i :: 0 <= i < |fields| ==> '?' !in fields[i]
    ensures Count('?', InsertColumnsAsWritten(pk, fields)) == 0
  {
    CountAbsent('?', pk);
    QuoteCount('?', pk);
    CountAbsent('?', ", ");
    QuotedListCount('?', fields);
    Count3('?', Join(", ", QuoteAll(fields)), ", ", Quote(pk));
  }

  /** The text of the insert statement before its value list carries no
      placeholder. */
  lemma {:induction false} InsertHeadUnmarked(table: string, pk: string, fields: seq<string>)
    requires '?' !in table && '?' !in pk && forall i :: 0 <= i < |fields| ==> '?' !in fields[i]
    ensures Count('?', "insert into " + Quote(table) + " (" + InsertColumnsAsWritten(pk, fields) + ") values (") == 0
  {
    var head := "insert into " + Quote(table) + " (";
    FramedMarks("insert into ", table, " (");
    InsertColumnsUnmarked(pk, fields);
    CountAbsent('?', ") values (");
    Count3('?', head, InsertColumnsAsWritten(pk, fields), ") values (");
  }

  lemma {:induction false} InsertMarks(s: Schema)
    requires Unmarked('?', s)
    ensures Count('?', InsertSql(s.table, s.primaryKey, s.fields)) == |s.fields| + 1
  {
    var front := "insert into " + Quote(s.table) + " (" + InsertColumnsAsWritten(s.primaryKey, s.fields) + ") values (";
    InsertHeadUnmarked(s.table, s.primaryKey, s.fields);
    CountAbsent('?', ")");
    Count3('?', front, ArgsString(|s.fields| + 1), ")");
  }

  /** Each `col=?` assignment carries one placeholder. */
  lemma {:induction false} AssignmentsMarks(columns: seq<Column>, fields: seq<string>)
    requires forall i :: 0 <= i < |fields| ==> '?' !in ColumnName(columns, fields[i])
    ensures |fields| > 0 ==> Count('?', Join(", ", Assignments(columns, fields))) == |fields|
  {
    var sets := Assignments(columns, fields);
    forall i | 0 <= i < |sets| ensures Count('?', sets[i]) == 1 {
      var col := ColumnName(columns, fields[i]);
      CountAbsent('?', col);
      QuoteCount('?', col);
      assert Count('?', "=?") == 1;
      CountAppend('?', Quote(col), "=?");
    }
    if |sets| > 0 {
      CountAbsent('?', ", ");
      CountJoin('?', ", ", sets, 1);
    }
  }

  lemma {:induction false} UpdateMarks(s: Schema)
    requires Unmarked('?', s)
    ensures Count('?', UpdateSql(s.table, s.primaryKey, s.columns, s.fields)) == |s.fields| + 1
  {
    var head := "update " + Quote(s.table) + " set ";
    var sets := Join(", ", Assignments(s.columns, s.fields));
    var cond := " where " + Quote(s.primaryKey) + "=?";
    AssignmentsMarks(s.columns, s.fields);
    if |s.fields| == 0 {
      assert sets == "";
    }
    FramedMarks("update ", s.table, " set ");
    KeyConditionMarks(s.primaryKey);
    Count3('?', head, sets, cond);
    assert UpdateSql(s.table, s.primaryKey, s.columns, s.fields) == head + sets + cond;
  }

  lemma {:induction false} DeleteMarks(s: Schema)
    requires Unmarked('?', s)
    ensures Count('?', DeleteSql(s.table, s.primaryKey)) == 1
  {
    var x2 := "delete from " + Quote(s.table) + " where ";
    var x3 := x2 + Quote(s.primaryKey);
    FramedMarks("delete from ", s.table, " where ");
    CountAbsent('?', s.primaryKey);
    QuoteCount('?', s.primaryKey);
    CountAppend('?', x2, Quote(s.primaryKey));
    assert Count('?', "=?") == 1;
    CountAppend('?', x3, "=?");
  }

  /** Every statement the metaclass builds has exactly as many `?`
      placeholders as the repository call that runs it passes arguments:
      `save` and `update` pass one per non-key column plus the key, `remove`
      and `find` pass the key alone, and the bare select takes none. */
  lemma {:induction false} StatementsMatchArguments(c: ClassDecl, e: Entity, oracle: Oracle, draws: nat, exec: Executor)
    requires Namespace(c.attrs)
    requires Compile(c).Success? && Compile(c).value.MappedModel?
    requires Unmarked('?', Compile(c).value.schema)
    ensures var s := Compile(c).value.schema;
      && WellFormed(s)
      && Count('?', s.insert) == |Save(s, e, oracle, draws, exec).write.args|
      && Count('?', s.update) == |Update(s, e, exec).args|
      && Count('?', s.delete) == |Remove(s, e, exec).args|
      && Count('?', FindSql(s)) == 1
      && Count('?', s.select) == 0
  {
    var s := Compile(c).value.schema;
    CompiledSchemaWellFormed(c);
    SelectMarks(s);
    FindMarks(s);
    InsertMarks(s);
    UpdateMarks(s);
    DeleteMarks(s);
  }

  // ----------------------------------------- column lists of a key-only model

  /** As written, a model whose only column is its primary key gets a select
      list with a dangling separator and an insert list with one more entry
      than its value list. */
  lemma {:induction false} KeyOnlyColumnListsAsWritten()
    ensures SelectColumnsAsWritten("id", []) == "`id`, "
    ensures InsertColumnsAsWritten("id", []) == ", `id`"
    ensures Count(',', InsertColumnsAsWritten("id", [])) == 1
    ensures Count(',', ArgsString(1)) == 0
  {
    assert Join(", ", QuoteAll([])) == "";
    assert Count(',', ", `id`") == 1;
  }

  /** As written, a compiled model with no column besides its key selects
      with a separator and no column after it, and inserts into two columns
      one value; the corrected statements name the key alone. */
  lemma {:induction false} KeyOnlyCompileAsWritten(c: ClassDecl)
    requires Compile(c).Success? && Compile(c).value.MappedModel?
    requires |Compile(c).value.schema.fields| == 0
    ensures var s := Compile(c).value.schema;
      && s.select == "select " + Quote(s.primaryKey) + ", " + " from " + Quote(s.table)
      && s.insert == "insert into " + Quote(s.table) + " (" + ", " + Quote(s.primaryKey) + ") values (?)"
    ensures var s := CompileCorrected(c).value.schema;
      && s.select == "select " + Quote(s.primaryKey) + " from " + Quote(s.table)
      && s.insert == "insert into " + Quote(s.table) + " (" + Quote(s.primaryKey) + ") values (?)"
  {
    var s := Compile(c).value.schema;
    assert QuoteAll(s.fields) == [];
    assert QuoteAll([s.primaryKey] + s.fields) == [Quote(s.primaryKey)];
    assert QuoteAll(s.fields + [s.primaryKey]) == [Quote(s.primaryKey)];
    assert ArgsString(1) == "?";
  }

  /** With at least one non-key column the written and the corrected
      statements coincide. */
  lemma {:induction false} CompileAgreesWithCorrected(c: ClassDecl)
    requires |NonKeyNames(c.attrs)| > 0
    ensures CompileCorrected(c) == Compile(c)
  {
    if c.name != "Model" && Compile(c).Success? {
      var s := Compile(c).value.schema;
      ColumnListsAgreeWithFields(s.primaryKey, s.fields);
    }
  }

  /** Each `set` clause of the update statement names the column its
      declaration gives, or the attribute name when the declaration gives
      none or an empty one. */
  lemma {:induction false} UpdateSetsDeclaredColumns(c: ClassDecl, i: nat)
    requires Compile(c).Success? && Compile(c).value.MappedModel?
    requires i < |Compile(c).value.schema.fields|
    ensures var s := Compile(c).value.schema;
      var f := Lookup(s.columns, s.fields[i]);
      && f.Some?
      && Assignments(s.columns, s.fields)[i] ==
           Quote(if f.value.name.Some? && f.value.name.value != "" then f.value.name.value else s.fields[i]) + "=?"
      && s.update == "update " + Quote(s.table) + " set " + Join(", ", Assignments(s.columns, s.fields))
                     + " where " + Quote(s.primaryKey) + "=?"
  {
    var s := Compile(c).value.schema;
    assert s.fields[i] in NonKeyNames(c.attrs);
    ScannedNames(c.attrs);
  }

  /** The corrected lists: select names the key and every other column, and
      the insert column list has exactly as many entries as its value list. */
  lemma {:induction false} CorrectedColumnLists(pk: string, fields: seq<string>)
    requires ',' !in pk && forall i :: 0 <= i < |fields| ==> ',' !in fields[i]
    ensures Count(',', SelectColumns(pk, fields)) == |fields|
    ensures Count(',', InsertColumns(pk, fields)) == |fields|
    ensures Count(',', InsertColumns(pk, fields)) == Count(',', ArgsString(|fields| + 1))
  {
    var sel := QuoteAll([pk] + fields);
    var ins := QuoteAll(fields + [pk]);
    forall i | 0 <= i < |sel| ensures Count(',', sel[i]) == 0 {
      var x := ([pk] + fields)[i];
      CountAbsent(',', x);
      QuoteCount(',', x);
    }
    forall i | 0 <= i < |ins| ensures Count(',', ins[i]) == 0 {
      var x := (fields + [pk])[i];
      CountAbsent(',', x);
      QuoteCount(',', x);
    }
    CountJoin(',', ", ", sel, 0);
    CountJoin(',', ", ", ins, 0);
  }
}
