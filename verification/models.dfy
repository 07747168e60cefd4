/** The three tables of the blog (`www/models.py`) and the generator of
    their primary keys. */
module Models {
  import opened Wrappers
  import opened Text
  import opened Apis
  import opened Orm
  import OrmFacts

  // -------------------------------------------------------------- next_id

  function Repeat(c: char, n: nat): (r: string)
    ensures |r| == n
    ensures forall i :: 0 <= i < n ==> r[i] == c
  {
    if n == 0 then "" else [c] + Repeat(c, n - 1)
  }

  /** `s` with zeros in front up to `width` characters. */
  function PadZeros(s: string, width: nat): (r: string)
    ensures |r| == if |s| >= width then |s| else width
    ensures r == Repeat('0', |r| - |s|) + s
  {
    if |s| >= width then Repeat('0', 0) + s else Repeat('0', width - |s|) + s
  }

  /** `'%0*d' % (width, i)`: zero padding goes after the sign. */
  function ZeroPadded(i: int, width: nat): string {
    if i < 0 then "-" + PadZeros(NatToString(-i), if width > 0 then width - 1 else 0)
    else PadZeros(NatToString(i), width)
  }

  /** `'%015d%s000' % (millis, hex)`. */
  function NextIdOf(millis: int, hex: string): string {
    ZeroPadded(millis, 15) + hex + "000"
  }

  /** `next_id()` at clock reading `now` (seconds) with a fresh `uuid4().hex`. */
  function NextId(now: real, hex: string): string {
    NextIdOf(Trunc(now * 1000.0), hex)
  }

  predicate IsLowerHex(s: string) {
    forall i :: 0 <= i < |s| ==> IsDigit(s[i]) || 'a' <= s[i] <= 'f'
  }

  function Pow10(k: nat): nat {
    if k == 0 then 1 else 10 * Pow10(k - 1)
  }

  lemma {:induction false} NatToStringLength(n: nat, k: nat)
    requires k >= 1 && n < Pow10(k)
    ensures |NatToString(n)| <= k
  {
    if n >= 10 {
      NatToStringLength(n / 10, k - 1);
    }
  }

  lemma {:induction false} LeadingZerosValue(z: nat, s: string)
    requires AllDigits(s)
    ensures AllDigits(Repeat('0', z) + s)
    ensures DigitsValue(Repeat('0', z) + s) == DigitsValue(s)
  {
    var t := Repeat('0', z) + s;
    if |s| == 0 {
      assert t == Repeat('0', z);
      ZerosValue(z);
    } else {
      assert t[..|t| - 1] == Repeat('0', z) + s[..|s| - 1];
      LeadingZerosValue(z, s[..|s| - 1]);
    }
  }

  lemma {:induction false} ZerosValue(z: nat)
    ensures AllDigits(Repeat('0', z))
    ensures DigitsValue(Repeat('0', z)) == 0
  {
    if z > 0 {
      var t := Repeat('0', z);
      assert t[..z - 1] == Repeat('0', z - 1);
      ZerosValue(z - 1);
    }
  }

  /** A key generated at a clock reading in range is fifty characters: the
      milliseconds as fifteen digits (from which they can be read back), the
      thirty-two hex digits of the UUID, and three zeros. */
  lemma {:induction false} NextIdLayout(millis: int, hex: string)
    requires 0 <= millis < Pow10(15) && |hex| == 32
    ensures var id := NextIdOf(millis, hex);
      && |id| == 50
      && AllDigits(id[..15])
      && DigitsValue(id[..15]) == millis
      && id[15..47] == hex
      && id[47..] == "000"
  {
    var digits := NatToString(millis);
    NatToStringLength(millis, 15);
    NatToStringValue(millis);
    var padded := PadZeros(digits, 15);
    LeadingZerosValue(15 - |digits|, digits);
    var id := NextIdOf(millis, hex);
    assert id == padded + hex + "000";
    assert id[..15] == padded;
  }

  /** A key made at a clock reading after 1970 holds digits and hex letters
      only, so it never contains the dash the session cookie splits on; a
      reading before 1970 puts a minus sign in front. */
  lemma {:induction false} NextIdDashFree(millis: int, hex: string)
    requires IsLowerHex(hex)
    ensures '-' in NextIdOf(millis, hex) <==> millis < 0
  {
    var id := NextIdOf(millis, hex);
    if millis >= 0 {
      var d := NatToString(millis);
      var p := PadZeros(d, 15);
      assert IsLowerHex(p) by {
        LeadingZerosValue(|p| - |d|, d);
        DigitsAreLowerHex(p);
      }
      DigitsAreLowerHex("000");
      LowerHexAppend(p, hex);
      LowerHexAppend(p + hex, "000");
      LowerHexDashFree(id);
    } else {
      assert id[0] == '-';
    }
  }

  lemma {:induction false} DigitsAreLowerHex(s: string)
    requires AllDigits(s)
    ensures IsLowerHex(s)
  {
  }

  lemma {:induction false} LowerHexDashFree(s: string)
    requires IsLowerHex(s)
    ensures '-' !in s
  {
    forall i | 0 <= i < |s| ensures s[i] != '-' {
      assert IsDigit(s[i]) || 'a' <= s[i] <= 'f';
    }
  }

  lemma {:induction false} LowerHexAppend(a: string, b: string)
    requires IsLowerHex(a) && IsLowerHex(b)
    ensures IsLowerHex(a + b)
  {
    assert forall i :: 0 <= i < |b| ==> (a + b)[|a| + i] == b[i];
  }

  /** `a` sorts strictly before `b` in Python's string order. */
  predicate Precedes(a: string, b: string) {
    exists i :: 0 <= i < |a| && i < |b| && a[..i] == b[..i] && a[i] < b[i]
  }

  lemma {:induction false} DigitsInjective(a: string, b: string)
    requires AllDigits(a) && AllDigits(b) && |a| == |b|
    requires DigitsValue(a) == DigitsValue(b)
    ensures a == b
  {
    if |a| > 0 {
      var n := |a| - 1;
      DigitsInjective(a[..n], b[..n]);
      assert a == a[..n] + [a[n]] && b == b[..n] + [b[n]];
    }
  }

  /** For numerals of equal width, numeric order is string order. */
  lemma {:induction false} DigitsOrder(a: string, b: string)
    requires AllDigits(a) && AllDigits(b) && |a| == |b|
    requires DigitsValue(a) < DigitsValue(b)
    ensures Precedes(a, b)
  {
    var n := |a| - 1;
    var a', b' := a[..n], b[..n];
    if DigitsValue(a') < DigitsValue(b') {
      DigitsOrder(a', b');
      var i :| 0 <= i < |a'| && i < |b'| && a'[..i] == b'[..i] && a'[i] < b'[i];
      assert a[..i] == a'[..i] && b[..i] == b'[..i];
      assert a[i] == a'[i] && b[i] == b'[i];
    } else if DigitsValue(a') == DigitsValue(b') {
      DigitsInjective(a', b');
      assert a[..n] == b[..n];
    }
  }

  lemma {:induction false} PrecedesExtend(a: string, b: string, x: string, y: string)
    requires Precedes(a, b)
    ensures Precedes(a + x, b + y)
  {
    var i :| 0 <= i < |a| && i < |b| && a[..i] == b[..i] && a[i] < b[i];
    assert (a + x)[..i] == a[..i] && (b + y)[..i] == b[..i];
  }

  /** Keys generated at earlier clock readings sort first, whatever the
      UUIDs: ordering by `id` is ordering by creation time. */
  lemma {:induction false} NextIdOrdered(m1: int, m2: int, h1: string, h2: string)
    requires 0 <= m1 < m2 < Pow10(15) && |h1| == 32 && |h2| == 32
    ensures Precedes(NextIdOf(m1, h1), NextIdOf(m2, h2))
  {
    NextIdLayout(m1, h1);
    NextIdLayout(m2, h2);
    var a, b := NextIdOf(m1, h1), NextIdOf(m2, h2);
    DigitsOrder(a[..15], b[..15]);
    PrecedesExtend(a[..15], b[..15], a[15..], b[15..]);
    assert a == a[..15] + a[15..] && b == b[..15] + b[15..];
  }

  // --------------------------------------------------------------- tables

  function Str50(name: string): Field {
    StringField(name := Some(name), ddl := "varchar(50)")
  }

  function Str500(name: string): Field {
    StringField(name := Some(name), ddl := "varchar(500)")
  }

  function IdField(): Field {
    StringField(name := Some("id"), primaryKey := true, default := Generated(GenKind.NextId), ddl := "varchar(50)")
  }

  function CreatedAtField(): Field {
    FloatField(name := Some("created_at"), default := Generated(Clock))
  }

  /** Python puts `__module__` and `__qualname__` first in every class body. */
  function Header(name: string): seq<Decl> {
    [Decl("__module__", PlainAttr("models")), Decl("__qualname__", PlainAttr(name))]
  }

  /** The non-key columns of a field list, as class attributes. */
  function ColumnDecls(columns: seq<Column>): seq<Decl> {
    seq(|columns|, i requires 0 <= i < |columns| => Decl(columns[i].key, FieldAttr(columns[i].field)))
  }

  function ColumnKeys(columns: seq<Column>): seq<string> {
    seq(|columns|, i requires 0 <= i < |columns| => columns[i].key)
  }

  /** Every table of the blog has the same shape: the class header,
      `__table__`, the `id` key, then the other columns in order. */
  function TableClass(name: string, table: string, columns: seq<Column>): ClassDecl {
    ClassDecl(name, Header(name)
      + [Decl("__table__", PlainAttr(table)), Decl("id", FieldAttr(IdField()))]
      + ColumnDecls(columns))
  }

  /** The columns of `class User(Model)` after `id`. */
  function UserTable(): seq<Column> {
    [ Column("email", Str50("email")),
      Column("passwd", Str50("passwd")),
      Column("admin", BooleanField(name := Some("admin"))),
      Column("name", Str50("name")),
      Column("image", Str500("image")),
      Column("created_at", CreatedAtField()) ]
  }

  /** The columns of `class Blog(Model)` after `id`. */
  function BlogTable(): seq<Column> {
    [ Column("user_id", Str50("user_id")),
      Column("user_name", Str50("user_name")),
      Column("user_image", Str500("user_image")),
      Column("name", Str50("name")),
      Column("summary", StringField(name := Some("summary"), ddl := "varchar(200)")),
      Column("content", TextField(name := Some("content"))),
      Column("created_at", CreatedAtField()) ]
  }

  /** The columns of `class Comment(Model)` after `id`. */
  function CommentTable(): seq<Column> {
    [ Column("blog_id", Str50("blog_id")),
      Column("user_id", Str50("user_id")),
      Column("user_name", Str50("user_name")),
      Column("user_image", Str500("user_image")),
      Column("content", TextField(name := Some("content"))),
      Column("created_at", CreatedAtField()) ]
  }

  function UserDecl(): ClassDecl {
    TableClass("User", "users", UserTable())
  }

  function BlogDecl(): ClassDecl {
    TableClass("Blog", "blogs", BlogTable())
  }

  function CommentDecl(): ClassDecl {
    TableClass("Comment", "comments", CommentTable())
  }

  // ------------------------------------------------- what the tables compile to

  lemma {:induction false} AppendDecl(a: seq<Decl>, d: Decl)
    ensures KeyNames(a + [d]) == KeyNames(a) + (if IsKey(d) then [d.key] else [])
    ensures NonKeyNames(a + [d]) == NonKeyNames(a) + (if IsNonKey(d) then [d.key] else [])
    ensures FieldColumns(a + [d]) == FieldColumns(a) + (if d.attr.FieldAttr? then [Column(d.key, d.attr.field)] else [])
  {
    assert (a + [d])[..|a|] == a;
  }

  lemma {:induction false} FirstAttrAppend(a: seq<Decl>, d: Decl, k: string)
    ensures FirstAttr(a + [d], k) == if FirstAttr(a, k).Some? then FirstAttr(a, k)
                                     else if d.key == k then Some(d.attr) else None
  {
    if |a| > 0 {
      assert (a + [d])[1..] == a[1..] + [d];
      FirstAttrAppend(a[1..], d, k);
    } else {
      assert a + [d] == [d];
    }
  }

  /** The facts `Compile` needs about a class body built one declaration
      at a time. */
  predicate Built(a: seq<Decl>, keys: seq<string>, fields: seq<string>, columns: seq<Column>, table: Option<Attr>) {
    && KeyNames(a) == keys
    && NonKeyNames(a) == fields
    && FieldColumns(a) == columns
    && FirstAttr(a, "__table__") == table
  }

  lemma {:induction false} Extend(a: seq<Decl>, d: Decl, keys: seq<string>, fields: seq<string>, columns: seq<Column>, table: Option<Attr>)
    requires Built(a, keys, fields, columns, table)
    ensures Built(a + [d],
                  keys + (if IsKey(d) then [d.key] else []),
                  fields + (if IsNonKey(d) then [d.key] else []),
                  columns + (if d.attr.FieldAttr? then [Column(d.key, d.attr.field)] else []),
                  if table.Some? then table else if d.key == "__table__" then Some(d.attr) else None)
  {
    AppendDecl(a, d);
    FirstAttrAppend(a, d, "__table__");
  }

  lemma {:induction false} HeaderBuilt(name: string)
    ensures Built(Header(name), [], [], [], None)
  {
    var h := Header(name);
    AppendDecl([], h[0]);
    assert [h[0]] + [h[1]] == h;
    AppendDecl([h[0]], h[1]);
    FirstAttrAppend([], h[0], "__table__");
    FirstAttrAppend([h[0]], h[1], "__table__");
  }

  predicate NoKeyAmong(columns: seq<Column>) {
    forall i :: 0 <= i < |columns| ==> !columns[i].field.primaryKey
  }

  lemma {:induction false} TableBody(name: string, table: string, columns: seq<Column>)
    requires NoKeyAmong(columns)
    ensures Built(TableClass(name, table, columns).attrs, ["id"], ColumnKeys(columns),
                  [Column("id", IdField())] + columns, Some(PlainAttr(table)))
    decreases |columns|
  {
    if |columns| == 0 {
      TableHead(name, table);
      assert columns == [] && ColumnKeys(columns) == [];
      assert [Column("id", IdField())] + columns == [Column("id", IdField())];
    } else {
      var pre := columns[..|columns| - 1];
      var c := columns[|columns| - 1];
      assert columns == pre + [c];
      assert [Column("id", IdField())] + pre + [Column(c.key, c.field)] == [Column("id", IdField())] + columns;
      TableBody(name, table, pre);
      TableSnoc(name, table, pre, c);
      Extend(TableClass(name, table, pre).attrs, Decl(c.key, FieldAttr(c.field)), ["id"], ColumnKeys(pre),
             [Column("id", IdField())] + pre, Some(PlainAttr(table)));
    }
  }

  lemma {:induction false} TableHead(name: string, table: string)
    ensures Built(TableClass(name, table, []).attrs, ["id"], [], [Column("id", IdField())], Some(PlainAttr(table)))
  {
    var t := Decl("__table__", PlainAttr(table));
    var k := Decl("id", FieldAttr(IdField()));
    HeaderBuilt(name);
    Extend(Header(name), t, [], [], [], None);
    Extend(Header(name) + [t], k, [], [], [], Some(PlainAttr(table)));
    assert TableClass(name, table, []).attrs == Header(name) + [t] + [k];
  }

  lemma {:induction false} TableSnoc(name: string, table: string, pre: seq<Column>, c: Column)
    ensures TableClass(name, table, pre + [c]).attrs == TableClass(name, table, pre).attrs + [Decl(c.key, FieldAttr(c.field))]
    ensures ColumnKeys(pre + [c]) == ColumnKeys(pre) + [c.key]
  {
    assert ColumnDecls(pre + [c]) == ColumnDecls(pre) + [Decl(c.key, FieldAttr(c.field))];
  }

  /** A table class compiles to a mapped class named by its `__table__`,
      keyed by `id`, whose other columns are the declared ones in order. */
  lemma {:induction false} TableSchema(name: string, table: string, columns: seq<Column>)
    requires name != "Model" && table != ""
    requires NoKeyAmong(columns)
    ensures Compile(TableClass(name, table, columns)).Success?
    ensures Compile(TableClass(name, table, columns)).value.MappedModel?
    ensures var s := Compile(TableClass(name, table, columns)).value.schema;
      && s.table == table
      && s.primaryKey == "id"
      && s.fields == ColumnKeys(columns)
      && s.columns == [Column("id", IdField())] + columns
  {
    TableBody(name, table, columns);
  }

  lemma {:induction false} UserKeys()
    ensures ColumnKeys(UserTable()) == ["email", "passwd", "admin", "name", "image", "created_at"]
  {
  }

  /** `User` compiles: table `users`, key `id`, and the other columns in
      declaration order, each with its declared field. */
  lemma {:induction false} UserSchema()
    ensures Compile(UserDecl()).Success? && Compile(UserDecl()).value.MappedModel?
    ensures var s := Compile(UserDecl()).value.schema;
      && s.table == "users"
      && s.primaryKey == "id"
      && s.fields == ["email", "passwd", "admin", "name", "image", "created_at"]
      && s.columns == [Column("id", IdField())] + UserTable()
  {
    TableSchema("User", "users", UserTable());
    UserKeys();
  }

  lemma {:induction false} BlogKeys()
    ensures ColumnKeys(BlogTable()) == ["user_id", "user_name", "user_image", "name", "summary", "content", "created_at"]
  {
  }

  /** `Blog` compiles: table `blogs`, key `id`, and the other columns in
      declaration order, each with its declared field. */
  lemma {:induction false} BlogSchema()
    ensures Compile(BlogDecl()).Success? && Compile(BlogDecl()).value.MappedModel?
    ensures var s := Compile(BlogDecl()).value.schema;
      && s.table == "blogs"
      && s.primaryKey == "id"
      && s.fields == ["user_id", "user_name", "user_image", "name", "summary", "content", "created_at"]
      && s.columns == [Column("id", IdField())] + BlogTable()
  {
    TableSchema("Blog", "blogs", BlogTable());
    BlogKeys();
  }

  lemma {:induction false} CommentKeys()
    ensures ColumnKeys(CommentTable()) == ["blog_id", "user_id", "user_name", "user_image", "content", "created_at"]
  {
  }

  /** `Comment` compiles: table `comments`, key `id`, and the other columns in
      declaration order, each with its declared field. */
  lemma {:induction false} CommentSchema()
    ensures Compile(CommentDecl()).Success? && Compile(CommentDecl()).value.MappedModel?
    ensures var s := Compile(CommentDecl()).value.schema;
      && s.table == "comments"
      && s.primaryKey == "id"
      && s.fields == ["blog_id", "user_id", "user_name", "user_image", "content", "created_at"]
      && s.columns == [Column("id", IdField())] + CommentTable()
  {
    TableSchema("Comment", "comments", CommentTable());
    CommentKeys();
  }

  /** In a column list with distinct names, each name finds its own column. */
  lemma {:induction false} LookupDistinct(columns: seq<Column>, i: nat)
    requires i < |columns| && Distinct(ColumnKeys(columns))
    ensures Lookup(columns, columns[i].key) == Some(columns[i].field)
    decreases i
  {
    if i > 0 {
      assert ColumnKeys(columns)[0] != ColumnKeys(columns)[i];
      var rest := columns[1..];
      assert Distinct(ColumnKeys(rest)) by {
        forall a, b | 0 <= a < b < |rest| ensures ColumnKeys(rest)[a] != ColumnKeys(rest)[b] {
          assert ColumnKeys(columns)[a + 1] != ColumnKeys(columns)[b + 1];
        }
      }
      LookupDistinct(rest, i - 1);
    }
  }

  lemma {:induction false} UserNamespace()
    ensures Namespace(UserDecl().attrs)
  {
    TableKeys("User", "users", UserTable());
    UserKeys();
    var ks := ["__module__", "__qualname__", "__table__", "id", "email", "passwd", "admin", "name", "image", "created_at"];
    assert Keys(UserDecl().attrs) == ks;
  }

  lemma {:induction false} TableKeys(name: string, table: string, columns: seq<Column>)
    ensures Keys(TableClass(name, table, columns).attrs)
         == ["__module__", "__qualname__", "__table__", "id"] + ColumnKeys(columns)
  {
    var a := TableClass(name, table, columns).attrs;
    var ks := ["__module__", "__qualname__", "__table__", "id"] + ColumnKeys(columns);
    assert |Keys(a)| == |ks|;
    forall i | 0 <= i < |a| ensures Keys(a)[i] == ks[i] {
      if i >= 4 {
        assert a[i] == ColumnDecls(columns)[i - 4];
      }
    }
  }

  /** One step of the reference values: an attribute already set. */
  lemma {:induction false} ExpectedSet(s: Schema, e: Entity, k: string, rest: seq<string>, oracle: Oracle, draws: nat)
    requires Lookup(s.columns, k).Some?
    requires forall i :: 0 <= i < |rest| ==> Lookup(s.columns, rest[i]).Some?
    requires GetValue(e, k) != Null
    ensures Expected(s, e, [k] + rest, oracle, draws) == [GetValue(e, k)] + Expected(s, e, rest, oracle, draws)
    ensures GeneratorCalls(s, e, [k] + rest) == GeneratorCalls(s, e, rest)
  {
    assert ([k] + rest)[1..] == rest;
  }

  /** One step of the reference values: an unset attribute with a fixed default. */
  lemma {:induction false} ExpectedFixed(s: Schema, e: Entity, k: string, rest: seq<string>, oracle: Oracle, draws: nat)
    requires Lookup(s.columns, k).Some? && Lookup(s.columns, k).value.default.Fixed?
    requires forall i :: 0 <= i < |rest| ==> Lookup(s.columns, rest[i]).Some?
    requires GetValue(e, k) == Null
    ensures Expected(s, e, [k] + rest, oracle, draws)
         == [Lookup(s.columns, k).value.default.value] + Expected(s, e, rest, oracle, draws)
    ensures GeneratorCalls(s, e, [k] + rest) == GeneratorCalls(s, e, rest)
  {
    assert ([k] + rest)[1..] == rest;
  }

  /** One step of the reference values: an unset attribute with a generator. */
  lemma {:induction false} ExpectedGenerated(s: Schema, e: Entity, k: string, rest: seq<string>, oracle: Oracle, draws: nat)
    requires Lookup(s.columns, k).Some? && Lookup(s.columns, k).value.default.Generated?
    requires forall i :: 0 <= i < |rest| ==> Lookup(s.columns, rest[i]).Some?
    requires GetValue(e, k) == Null
    ensures Expected(s, e, [k] + rest, oracle, draws)
         == [oracle(Lookup(s.columns, k).value.default.kind, draws)] + Expected(s, e, rest, oracle, draws + 1)
    ensures GeneratorCalls(s, e, [k] + rest) == GeneratorCalls(s, e, rest) + 1
  {
    assert ([k] + rest)[1..] == rest;
  }

  /** The attributes `api_register_user` gives a new user: the key it drew
      from `next_id`, the stripped name, the address, the salted password
      digest and the avatar URL. */
  datatype Registration = Registration(uid: string, name: string, email: string, passwd: string, image: string)

  /** `User(id=uid, name=..., email=..., passwd=..., image=...)`. */
  function NewUser(u: Registration): Entity {
    map["id" := Str(u.uid), "name" := Str(u.name), "email" := Str(u.email),
        "passwd" := Str(u.passwd), "image" := Str(u.image)]
  }

  /** What a new user's save relies on: the column defaults of `User` and an
      entity holding only the five attributes given to the constructor. */
  predicate NewUserEntity(s: Schema, e: Entity, u: Registration) {
    UserColumns(s) && NewUserAttributes(e, u)
  }

  predicate UserColumns(s: Schema) {
    && Lookup(s.columns, "email").Some? && Lookup(s.columns, "passwd").Some?
    && Lookup(s.columns, "name").Some? && Lookup(s.columns, "image").Some?
    && Lookup(s.columns, "id").Some?
    && Lookup(s.columns, "admin") == Some(BooleanField(name := Some("admin")))
    && Lookup(s.columns, "created_at") == Some(CreatedAtField())
  }

  predicate NewUserAttributes(e: Entity, u: Registration) {
    && GetValue(e, "email") == Str(u.email) && GetValue(e, "passwd") == Str(u.passwd)
    && GetValue(e, "name") == Str(u.name) && GetValue(e, "image") == Str(u.image)
    && GetValue(e, "id") == Str(u.uid)
    && GetValue(e, "admin") == Null && GetValue(e, "created_at") == Null
  }

  lemma {:induction false} NewUserValues6(s: Schema, e: Entity, u: Registration, oracle: Oracle, draws: nat)
    requires NewUserEntity(s, e, u)
    ensures Expected(s, e, ["id"], oracle, draws + 1) == [Str(u.uid)]
    ensures GeneratorCalls(s, e, ["id"]) == 0
  {
    ExpectedSet(s, e, "id", [], oracle, draws + 1);
    assert ["id"] == ["id"] + [];
  }

  lemma {:induction false} NewUserValues5(s: Schema, e: Entity, u: Registration, oracle: Oracle, draws: nat)
    requires NewUserEntity(s, e, u)
    ensures Expected(s, e, ["created_at", "id"], oracle, draws) == [oracle(Clock, draws), Str(u.uid)]
    ensures GeneratorCalls(s, e, ["created_at", "id"]) == 1
  {
    NewUserValues6(s, e, u, oracle, draws);
    ExpectedGenerated(s, e, "created_at", ["id"], oracle, draws);
    assert ["created_at", "id"] == ["created_at"] + ["id"];
  }

  lemma {:induction false} NewUserValues4(s: Schema, e: Entity, u: Registration, oracle: Oracle, draws: nat)
    requires NewUserEntity(s, e, u)
    ensures Expected(s, e, ["image", "created_at", "id"], oracle, draws)
         == [Str(u.image), oracle(Clock, draws), Str(u.uid)]
    ensures GeneratorCalls(s, e, ["image", "created_at", "id"]) == 1
  {
    NewUserValues5(s, e, u, oracle, draws);
    ExpectedSet(s, e, "image", ["created_at", "id"], oracle, draws);
    assert ["image", "created_at", "id"] == ["image"] + ["created_at", "id"];
  }

  lemma {:induction false} NewUserValues3(s: Schema, e: Entity, u: Registration, oracle: Oracle, draws: nat)
    requires NewUserEntity(s, e, u)
    ensures Expected(s, e, ["name", "image", "created_at", "id"], oracle, draws)
         == [Str(u.name), Str(u.image), oracle(Clock, draws), Str(u.uid)]
    ensures GeneratorCalls(s, e, ["name", "image", "created_at", "id"]) == 1
  {
    NewUserValues4(s, e, u, oracle, draws);
    ExpectedSet(s, e, "name", ["image", "created_at", "id"], oracle, draws);
    assert ["name", "image", "created_at", "id"] == ["name"] + ["image", "created_at", "id"];
  }

  lemma {:induction false} NewUserValues2(s: Schema, e: Entity, u: Registration, oracle: Oracle, draws: nat)
    requires NewUserEntity(s, e, u)
    ensures Expected(s, e, ["admin", "name", "image", "created_at", "id"], oracle, draws)
         == [Bool(false), Str(u.name), Str(u.image), oracle(Clock, draws), Str(u.uid)]
    ensures GeneratorCalls(s, e, ["admin", "name", "image", "created_at", "id"]) == 1
  {
    NewUserValues3(s, e, u, oracle, draws);
    ExpectedFixed(s, e, "admin", ["name", "image", "created_at", "id"], oracle, draws);
    assert ["admin", "name", "image", "created_at", "id"] == ["admin"] + ["name", "image", "created_at", "id"];
  }

  lemma {:induction false} NewUserValues1(s: Schema, e: Entity, u: Registration, oracle: Oracle, draws: nat)
    requires NewUserEntity(s, e, u)
    ensures Expected(s, e, ["passwd", "admin", "name", "image", "created_at", "id"], oracle, draws)
         == [Str(u.passwd), Bool(false), Str(u.name), Str(u.image), oracle(Clock, draws), Str(u.uid)]
    ensures GeneratorCalls(s, e, ["passwd", "admin", "name", "image", "created_at", "id"]) == 1
  {
    NewUserValues2(s, e, u, oracle, draws);
    ExpectedSet(s, e, "passwd", ["admin", "name", "image", "created_at", "id"], oracle, draws);
    assert ["passwd", "admin", "name", "image", "created_at", "id"] == ["passwd"] + ["admin", "name", "image", "created_at", "id"];
  }

  /** The attribute values a new user's insert sends, computed from the
      column defaults alone: only the clock is drawn. */
  lemma {:induction false} NewUserValues(s: Schema, e: Entity, u: Registration, oracle: Oracle, draws: nat)
    requires NewUserEntity(s, e, u)
    ensures Expected(s, e, ["email", "passwd", "admin", "name", "image", "created_at", "id"], oracle, draws)
         == [Str(u.email), Str(u.passwd), Bool(false), Str(u.name), Str(u.image), oracle(Clock, draws), Str(u.uid)]
    ensures GeneratorCalls(s, e, ["email", "passwd", "admin", "name", "image", "created_at", "id"]) == 1
  {
    NewUserValues1(s, e, u, oracle, draws);
    ExpectedSet(s, e, "email", ["passwd", "admin", "name", "image", "created_at", "id"], oracle, draws);
    assert ["email", "passwd", "admin", "name", "image", "created_at", "id"]
        == ["email"] + ["passwd", "admin", "name", "image", "created_at", "id"];
  }

  lemma {:induction false} NewUserAttributesHold(u: Registration)
    ensures NewUserAttributes(NewUser(u), u)
  {
    var e := NewUser(u);
    assert "admin" !in e && "created_at" !in e;
  }

  /** What saving relies on in the compiled `User` schema. */
  lemma {:induction false} UserSchemaReady()
    ensures Compile(UserDecl()).Success? && Compile(UserDecl()).value.MappedModel?
    ensures var s := Compile(UserDecl()).value.schema;
      && WellFormed(s) && UserColumns(s)
      && SaveKeys(s) == ["email", "passwd", "admin", "name", "image", "created_at", "id"]
  {
    UserSchema();
    UserLookups();
    UserNamespace();
    OrmFacts.CompiledSchemaWellFormed(UserDecl());
  }

  function UserColumnList(): seq<Column> {
    [Column("id", IdField())] + UserTable()
  }

  lemma {:induction false} UserKeysDistinct()
    ensures Distinct(ColumnKeys(UserColumnList()))
  {
    assert ColumnKeys(UserColumnList()) == ["id", "email", "passwd", "admin", "name", "image", "created_at"];
  }

  lemma {:induction false} UserLookups()
    ensures var c := UserColumnList();
      && Lookup(c, "email").Some? && Lookup(c, "passwd").Some?
      && Lookup(c, "name").Some? && Lookup(c, "image").Some?
      && Lookup(c, "admin") == Some(BooleanField(name := Some("admin")))
      && Lookup(c, "created_at") == Some(CreatedAtField())
      && Lookup(c, "id") == Some(IdField())
  {
    var c := UserColumnList();
    UserKeysDistinct();
    LookupDistinct(c, 0);
    LookupDistinct(c, 1);
    LookupDistinct(c, 2);
    LookupDistinct(c, 3);
    LookupDistinct(c, 4);
    LookupDistinct(c, 5);
    LookupDistinct(c, 6);
  }

  /** Saving the user `api_register_user` builds sends the five given
      values in column order with `False` for `admin` and a timestamp for
      `created_at`: the key is the one drawn beforehand, so the clock is the
      only default called, exactly once. */
  lemma {:induction false} RegisteredUserSave(u: Registration, oracle: Oracle, draws: nat, exec: Executor)
    ensures Compile(UserDecl()).Success? && Compile(UserDecl()).value.MappedModel?
    ensures var s := Compile(UserDecl()).value.schema;
      WellFormed(s) &&
      var saved := Save(s, NewUser(u), oracle, draws, exec);
      && saved.write.args == [Str(u.email), Str(u.passwd), Bool(false), Str(u.name), Str(u.image),
                              oracle(Clock, draws), Str(u.uid)]
      && saved.draws == draws + 1
  {
    UserSchemaReady();
    SaveNewUser(Compile(UserDecl()).value.schema, u, oracle, draws, exec);
  }

  lemma {:induction false} SaveNewUser(s: Schema, u: Registration, oracle: Oracle, draws: nat, exec: Executor)
    requires WellFormed(s) && UserColumns(s)
    requires SaveKeys(s) == ["email", "passwd", "admin", "name", "image", "created_at", "id"]
    ensures var saved := Save(s, NewUser(u), oracle, draws, exec);
      && saved.write.args == [Str(u.email), Str(u.passwd), Bool(false), Str(u.name), Str(u.image),
                              oracle(Clock, draws), Str(u.uid)]
      && saved.draws == draws + 1
  {
    NewUserAttributesHold(u);
    NewUserValues(s, NewUser(u), u, oracle, draws);
  }
}
