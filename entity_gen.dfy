/**
 * The JPA entity generator of `generar_entities.py`: annotations per attribute,
 * field declarations, relationship fields, accessors and the import block, each
 * built by a loop that appends to a list which is then joined.
 */
module EntityGen {
  import opened Wrappers
  import opened Strings
  import Ordering

  /** One entry of an entity's `attributes`; `Option` fields are keys that may be absent. */
  datatype Attribute = Attribute(
    name: string,
    javaType: string,
    isPrimaryKey: Option<bool>,
    isAutoIncrement: Option<bool>,
    length: Option<int>,
    isNullable: Option<bool>,
    isUnique: Option<bool>,
    columnType: Option<string>)

  /** One entry of an entity's `relationships`. */
  datatype Relationship = Relationship(
    relType: string,
    targetEntity: string,
    joinColumn: Option<string>,
    mappedBy: Option<string>,
    optional: Option<bool>)

  /** One entity of the model; `relationships` may be absent (or JSON null). */
  datatype Entity = Entity(
    name: string,
    tableName: string,
    attributes: seq<Attribute>,
    relationships: Option<seq<Relationship>>)

  predicate IsPrimaryKey(a: Attribute) { a.isPrimaryKey.GetOr(false) }
  predicate IsAutoIncrement(a: Attribute) { a.isAutoIncrement.GetOr(false) }
  predicate IsNullable(a: Attribute) { a.isNullable.GetOr(true) }
  predicate IsUnique(a: Attribute) { a.isUnique.GetOr(false) }
  predicate IsTextColumn(a: Attribute) { a.columnType == Some("TEXT") }

  // ---------------------------------------------------------------------------
  // `mapear_tipo_java`

  const IdLine: string := "    @Id"
  const GeneratedValueLine: string := "    @GeneratedValue(" + "strategy = GenerationType.IDENTITY)"

  /** A parameter of the `@Column(...)` annotation. */
  datatype ColumnParam = LengthParam(n: int) | NotNullableParam | UniqueParam | TextParam

  /** Position of a parameter kind in the annotation. */
  function ParamRank(p: ColumnParam): nat {
    match p
    case LengthParam(_) => 0
    case NotNullableParam => 1
    case UniqueParam => 2
    case TextParam => 3
  }

  /** The parameters an attribute asks for, kind by kind in the fixed order. */
  function ColumnParams(a: Attribute): seq<ColumnParam> {
    (if a.length.Some? then [LengthParam(a.length.value)] else [])
    + (if !IsNullable(a) then [NotNullableParam] else [])
    + (if IsUnique(a) then [UniqueParam] else [])
    + (if IsTextColumn(a) then [TextParam] else [])
  }

  function ParamText(p: ColumnParam): (r: string)
    ensures |r| > 0
  {
    match p
    case LengthParam(n) => "length = " + IntToString(n)
    case NotNullableParam => "nullable = false"
    case UniqueParam => "unique = true"
    case TextParam => "columnDefinition = \"TEXT\""
  }

  function ParamTexts(ps: seq<ColumnParam>): seq<string> {
    seq(|ps|, k requires 0 <= k < |ps| => ParamText(ps[k]))
  }

  lemma ParamTextsSnoc(ps: seq<ColumnParam>, p: ColumnParam)
    ensures ParamTexts(ps + [p]) == ParamTexts(ps) + [ParamText(p)]
  {
  }

  /** The `@Column(...)` line: the parameters joined by ", ". */
  function ColumnLine(a: Attribute): string {
    "    @Column(" + Join(ParamTexts(ColumnParams(a)), ", ") + ")"
  }

  /** The annotation lines of an attribute, top to bottom. */
  function AnnotationLines(a: Attribute): seq<string> {
    (if IsPrimaryKey(a) then [IdLine] + (if IsAutoIncrement(a) then [GeneratedValueLine] else []) else [])
    + [ColumnLine(a)]
  }

  /** Builds the annotation block of one attribute and hands back its Java type unchanged. */
  method MapJavaType(attribute: Attribute) returns (annotations: string, javaType: string)
    ensures annotations == Join(AnnotationLines(attribute), "\n")
    ensures javaType == attribute.javaType
  {
    javaType := attribute.javaType;
    var lines: seq<string> := [];
    if IsPrimaryKey(attribute) {
      lines := lines + [IdLine];
      if IsAutoIncrement(attribute) {
        lines := lines + [GeneratedValueLine];
      }
    }
    var columnDef := "    @Column(";
    var params: seq<string> := [];
    ghost var kinds: seq<ColumnParam> := [];
    if attribute.length.Some? {
      ParamTextsSnoc(kinds, LengthParam(attribute.length.value));
      params := params + ["length = " + IntToString(attribute.length.value)];
      kinds := kinds + [LengthParam(attribute.length.value)];
    }
    if !IsNullable(attribute) {
      ParamTextsSnoc(kinds, NotNullableParam);
      params := params + ["nullable = false"];
      kinds := kinds + [NotNullableParam];
    }
    if IsUnique(attribute) {
      ParamTextsSnoc(kinds, UniqueParam);
      params := params + ["unique = true"];
      kinds := kinds + [UniqueParam];
    }
    if IsTextColumn(attribute) {
      ParamTextsSnoc(kinds, TextParam);
      params := params + ["columnDefinition = \"TEXT\""];
      kinds := kinds + [TextParam];
    }
    assert kinds == ColumnParams(attribute);
    assert params == ParamTexts(ColumnParams(attribute));
    if params != [] {
      columnDef := columnDef + Join(params, ", ");
    } else {
      assert columnDef == columnDef + Join(params, ", ");
    }
    columnDef := columnDef + ")";
    assert columnDef == ColumnLine(attribute);
    lines := lines + [columnDef];
    assert lines == AnnotationLines(attribute);
    annotations := Join(lines, "\n");
  }

  /** Each parameter appears exactly when its key asks for it. */
  lemma ColumnParamsSelected(a: Attribute)
    ensures forall n :: LengthParam(n) in ColumnParams(a) <==> a.length == Some(n)
    ensures NotNullableParam in ColumnParams(a) <==> !IsNullable(a)
    ensures UniqueParam in ColumnParams(a) <==> IsUnique(a)
    ensures TextParam in ColumnParams(a) <==> IsTextColumn(a)
  {
  }

  predicate RankSorted(ps: seq<ColumnParam>) {
    forall i, j :: 0 <= i < j < |ps| ==> ParamRank(ps[i]) < ParamRank(ps[j])
  }

  /** Two rank-sorted runs, the first ranked below `k` and the second from `k` on, make one run. */
  lemma AppendRankSorted(xs: seq<ColumnParam>, ys: seq<ColumnParam>, k: nat)
    requires RankSorted(xs) && RankSorted(ys)
    requires forall p :: p in xs ==> ParamRank(p) < k
    requires forall q :: q in ys ==> k <= ParamRank(q)
    ensures RankSorted(xs + ys)
  {
    var zs := xs + ys;
    forall i, j | 0 <= i < j < |zs|
      ensures ParamRank(zs[i]) < ParamRank(zs[j])
    {
      if j < |xs| {
        assert zs[i] == xs[i] && zs[j] == xs[j];
      } else if i >= |xs| {
        assert zs[i] == ys[i - |xs|] && zs[j] == ys[j - |xs|];
      } else {
        assert zs[i] == xs[i] && zs[i] in xs;
        assert zs[j] == ys[j - |xs|] && zs[j] in ys;
      }
    }
  }

  /** The parameters come in the fixed order length, nullable, unique, columnDefinition. */
  lemma ColumnParamsOrdered(a: Attribute)
    ensures RankSorted(ColumnParams(a))
  {
    var l := if a.length.Some? then [LengthParam(a.length.value)] else [];
    var n := if !IsNullable(a) then [NotNullableParam] else [];
    var u := if IsUnique(a) then [UniqueParam] else [];
    var t := if IsTextColumn(a) then [TextParam] else [];
    AppendRankSorted(l, n, 1);
    AppendRankSorted(l + n, u, 2);
    AppendRankSorted(l + n + u, t, 3);
  }

  lemma PrefixAppend(h: string, x: string, t: string)
    requires |h| <= |x| && x[..|h|] == h
    ensures |h| <= |x + t| && (x + t)[..|h|] == h
  {
    assert (x + t)[..|h|] == x[..|h|];
  }

  lemma {:induction false} JoinCovers(parts: seq<string>, sep: string)
    requires |parts| > 0
    ensures |Join(parts, sep)| >= |parts[0]|
  {
  }

  /** With no parameter the annotation is exactly `@Column()`, and only then. */
  lemma EmptyColumnAnnotation(a: Attribute)
    ensures ColumnLine(a) == "    @Column()" <==> ColumnParams(a) == []
  {
    var texts := ParamTexts(ColumnParams(a));
    if texts != [] {
      JoinCovers(texts, ", ");
      assert |ColumnLine(a)| > |"    @Column()"|;
    }
  }

  /**
   * `@Id` is there exactly for a primary key, `@GeneratedValue` exactly for an
   * auto-increment primary key, and the `@Column(...)` line always closes the block.
   */
  lemma AnnotationFlags(a: Attribute)
    ensures IdLine in AnnotationLines(a) <==> IsPrimaryKey(a)
    ensures GeneratedValueLine in AnnotationLines(a) <==> IsPrimaryKey(a) && IsAutoIncrement(a)
    ensures AnnotationLines(a)[|AnnotationLines(a)| - 1] == ColumnLine(a)
  {
    assert ColumnLine(a)[..6] == "    @C";
    assert IdLine[..6] == "    @I";
    assert GeneratedValueLine[..6] == "    @G";
  }

  lemma JoinPair(x: string, y: string, sep: string)
    ensures Join([x, y], sep) == x + sep + y
  {
    assert [x, y][1..] == [y];
  }

  /** With two parameters the annotation is `@Column(<first>, <second>)`. */
  lemma TwoParamLine(a: Attribute, x: string, y: string)
    requires ParamTexts(ColumnParams(a)) == [x, y]
    ensures ColumnLine(a) == "    @Column(" + (x + ", " + y) + ")"
  {
    JoinPair(x, y, ", ");
  }

  /** The `descripcion` column of `Alerta`: a required TEXT column. */
  lemma RequiredTextColumn(a: Attribute)
    requires a.length.None? && a.isNullable == Some(false) && !IsUnique(a) && a.columnType == Some("TEXT")
    ensures ColumnLine(a) == "    @Column(" + ("nullable = false" + ", " + "columnDefinition = \"TEXT\"") + ")"
  {
    assert ColumnParams(a) == [NotNullableParam, TextParam];
    TwoParamLine(a, "nullable = false", "columnDefinition = \"TEXT\"");
  }

  /** The `nombre` column of `Invernadero`: length 100, not nullable. */
  lemma SizedRequiredColumn(a: Attribute)
    requires a.length == Some(100) && a.isNullable == Some(false) && !IsUnique(a) && a.columnType.None?
    ensures ColumnLine(a) == "    @Column(" + ("length = 100" + ", " + "nullable = false") + ")"
  {
    assert IntToString(100) == "100";
    assert ColumnParams(a) == [LengthParam(100), NotNullableParam];
    assert ParamText(LengthParam(100)) == "length = " + "100" == "length = 100";
    TwoParamLine(a, "length = 100", "nullable = false");
  }

  // ---------------------------------------------------------------------------
  // `generar_atributos`

  /** A field declaration line. */
  function Declaration(javaType: string, name: string): string {
    "    private " + javaType + " " + name + ";"
  }

  /** The code block of one field: a blank line, its annotations, its declaration. */
  function FieldBlock(a: Attribute): string {
    "\n" + Join(AnnotationLines(a), "\n") + "\n" + Declaration(a.javaType, a.name) + "\n"
  }

  /** The field blocks of the attribute loop, which skips primary keys. */
  function FieldBlocks(attrs: seq<Attribute>): seq<string>
    decreases |attrs|
  {
    if attrs == [] then []
    else
      var a := attrs[|attrs| - 1];
      FieldBlocks(attrs[..|attrs| - 1]) + (if IsPrimaryKey(a) then [] else [FieldBlock(a)])
  }

  /** The fields of a class: one block per non-key attribute, joined by newlines. */
  method GenerateAttributes(attributes: seq<Attribute>) returns (code: string)
    ensures code == Join(FieldBlocks(attributes), "\n")
  {
    var atributosCode: seq<string> := [];
    for i := 0 to |attributes|
      invariant atributosCode == FieldBlocks(attributes[..i])
    {
      var attr := attributes[i];
      assert attributes[..i + 1][..i] == attributes[..i];
      if IsPrimaryKey(attr) {
        continue;
      }
      var annotations, javaType := MapJavaType(attr);
      var name := attr.name;
      atributosCode := atributosCode + ["\n" + annotations + "\n" + Declaration(javaType, name) + "\n"];
    }
    assert attributes[..|attributes|] == attributes;
    code := Join(atributosCode, "\n");
  }

  /** The attributes that are not primary keys, in input order. */
  function NonKeyAttributes(attrs: seq<Attribute>): (r: seq<Attribute>)
    decreases |attrs|
  {
    if attrs == [] then []
    else (if IsPrimaryKey(attrs[0]) then [] else [attrs[0]]) + NonKeyAttributes(attrs[1..])
  }

  lemma {:induction false} NonKeyAttributesSnoc(attrs: seq<Attribute>, a: Attribute)
    ensures NonKeyAttributes(attrs + [a]) == NonKeyAttributes(attrs) + (if IsPrimaryKey(a) then [] else [a])
    decreases |attrs|
  {
    if attrs == [] {
      assert [a][1..] == [];
    } else {
      assert (attrs + [a])[1..] == attrs[1..] + [a];
      NonKeyAttributesSnoc(attrs[1..], a);
    }
  }

  lemma {:induction false} NonKeyAttributesMembers(attrs: seq<Attribute>)
    ensures forall a :: a in NonKeyAttributes(attrs) <==> a in attrs && !IsPrimaryKey(a)
    decreases |attrs|
  {
    if attrs != [] {
      NonKeyAttributesMembers(attrs[1..]);
      assert attrs == [attrs[0]] + attrs[1..];
    }
  }

  /**
   * `generar_atributos` emits exactly one field block per attribute that is not
   * a primary key, in input order, and nothing for primary keys.
   */
  lemma FieldBlockMapSnoc(ks: seq<Attribute>, a: Attribute)
    ensures var ks' := ks + [a];
      seq(|ks'|, k requires 0 <= k < |ks'| => FieldBlock(ks'[k]))
        == seq(|ks|, k requires 0 <= k < |ks| => FieldBlock(ks[k])) + [FieldBlock(a)]
  {
  }

  lemma {:induction false} FieldBlocksOfNonKeys(attrs: seq<Attribute>)
    ensures var ks := NonKeyAttributes(attrs);
      FieldBlocks(attrs) == seq(|ks|, k requires 0 <= k < |ks| => FieldBlock(ks[k]))
    decreases |attrs|
  {
    if attrs != [] {
      var init, a := attrs[..|attrs| - 1], attrs[|attrs| - 1];
      FieldBlocksOfNonKeys(init);
      assert attrs == init + [a];
      NonKeyAttributesSnoc(init, a);
      if !IsPrimaryKey(a) {
        FieldBlockMapSnoc(NonKeyAttributes(init), a);
      }
    }
  }

  // ---------------------------------------------------------------------------
  // `generar_relaciones`

  /** The keys the relationship loops read for a relationship of each kind are present. */
  predicate Ready(r: Relationship) {
    && (r.relType == "ManyToOne" ==> r.joinColumn.Some? && |r.targetEntity| > 0)
    && (r.relType == "OneToMany" ==> r.mappedBy.Some? && |r.targetEntity| > 0)
  }

  predicate AllReady(rels: seq<Relationship>) {
    forall k :: 0 <= k < |rels| ==> Ready(rels[k])
  }

  /** `str(b).lower()` for a Python bool. */
  function JavaBool(b: bool): string {
    if b then "true" else "false"
  }

  /** The code block of one relationship; `None` for a kind the generator ignores. */
  function RelationshipBlock(r: Relationship): Option<string>
    requires Ready(r)
  {
    var target := r.targetEntity;
    if r.relType == "ManyToOne" then
      Some("\n    @ManyToOne\n" + "    @JoinColumn(name = \"" + r.joinColumn.value
           + "\", nullable = " + JavaBool(!r.optional.GetOr(false)) + ")\n"
           + Declaration(target, LowerFirst(target)) + "\n")
    else if r.relType == "OneToMany" then
      Some("\n    @OneToMany(mappedBy = \"" + r.mappedBy.value + "\")\n"
           + Declaration("List<" + target + ">", LowerFirst(target) + "s") + "\n")
    else None
  }

  /**
   * A ManyToOne block is `@ManyToOne`, then `@JoinColumn` on its join column with
   * `nullable` the negation of `optional` (absent counts as false), then the field.
   * A OneToMany block is `@OneToMany` with its `mappedBy`, then the list field.
   */
  lemma RelationshipAnnotations(r: Relationship)
    requires Ready(r)
    ensures r.relType == "ManyToOne" ==> RelationshipBlock(r) == Some(
      "\n    @ManyToOne\n" + "    @JoinColumn(name = \"" + r.joinColumn.value
      + "\", nullable = " + (if r.optional.GetOr(false) then "false" else "true") + ")\n"
      + Declaration(r.targetEntity, LowerFirst(r.targetEntity)) + "\n")
    ensures r.relType == "OneToMany" ==> RelationshipBlock(r) == Some(
      "\n    @OneToMany(mappedBy = \"" + r.mappedBy.value + "\")\n"
      + Declaration("List<" + r.targetEntity + ">", LowerFirst(r.targetEntity) + "s") + "\n")
  {
  }

  function RelationshipBlocks(rels: seq<Relationship>): seq<string>
    requires AllReady(rels)
    decreases |rels|
  {
    if rels == [] then []
    else
      var r := rels[|rels| - 1];
      RelationshipBlocks(rels[..|rels| - 1])
      + (match RelationshipBlock(r) case Some(b) => [b] case None => [])
  }

  /** The relationship fields of a class, joined by newlines; nothing when there are none. */
  method GenerateRelationships(relationships: seq<Relationship>) returns (code: string)
    requires AllReady(relationships)
    ensures code == Join(RelationshipBlocks(relationships), "\n")
  {
    if |relationships| == 0 {
      return "";
    }
    var relacionesCode: seq<string> := [];
    for i := 0 to |relationships|
      invariant relacionesCode == RelationshipBlocks(relationships[..i])
    {
      var rel := relationships[i];
      assert relationships[..i + 1][..i] == relationships[..i];
      var relType := rel.relType;
      var target := rel.targetEntity;
      if relType == "ManyToOne" {
        var joinColumn := rel.joinColumn.value;
        var opcional := rel.optional.GetOr(false);
        var codigo := "\n    @ManyToOne\n" + "    @JoinColumn(name = \"" + joinColumn
          + "\", nullable = " + JavaBool(!opcional) + ")\n"
          + Declaration(target, LowerFirst(target)) + "\n";
        relacionesCode := relacionesCode + [codigo];
      } else if relType == "OneToMany" {
        var mappedBy := rel.mappedBy.value;
        var codigo := "\n    @OneToMany(mappedBy = \"" + mappedBy + "\")\n"
          + Declaration("List<" + target + ">", LowerFirst(target) + "s") + "\n";
        relacionesCode := relacionesCode + [codigo];
      }
    }
    assert relationships[..|relationships|] == relationships;
    code := Join(relacionesCode, "\n");
  }

  /** Only `ManyToOne` and `OneToMany` relationships produce a block; other kinds produce nothing. */
  lemma RelationshipBlockKinds(r: Relationship)
    requires Ready(r)
    ensures RelationshipBlock(r).Some? <==> r.relType == "ManyToOne" || r.relType == "OneToMany"
  {
  }

  /** Relationship blocks are produced relationship by relationship. */
  lemma {:induction false} RelationshipBlocksAppend(xs: seq<Relationship>, ys: seq<Relationship>)
    requires AllReady(xs) && AllReady(ys)
    ensures AllReady(xs + ys)
    ensures RelationshipBlocks(xs + ys) == RelationshipBlocks(xs) + RelationshipBlocks(ys)
    decreases |ys|
  {
    if ys == [] {
      assert xs + ys == xs;
    } else {
      var init := ys[..|ys| - 1];
      assert (xs + ys)[..|xs + ys| - 1] == xs + init;
      assert AllReady(init);
      RelationshipBlocksAppend(xs, init);
    }
  }

  // ---------------------------------------------------------------------------
  // `generar_getters_setters`

  /** A getter and a setter for one field. */
  function AccessorBlock(javaType: string, name: string): string
    requires |name| > 0
  {
    "\n    public " + javaType + " get" + Capitalize(name) + "() {" + "\n        return " + name
    + ";\n    }\n\n    public void set" + Capitalize(name) + "(" + javaType + " " + name
    + ") {\n        this." + name + " = " + name + ";\n    }\n"
  }

  /** The field name the accessor loop derives for a relationship. */
  function RelationshipField(r: Relationship): string
    requires |r.targetEntity| > 0
  {
    LowerFirst(r.targetEntity) + (if r.relType == "OneToMany" then "s" else "")
  }

  /** The field type the accessor loop derives for a relationship. */
  function RelationshipJavaType(r: Relationship): string {
    if r.relType == "OneToMany" then "List<" + r.targetEntity + ">" else r.targetEntity
  }

  predicate NamesPresent(attrs: seq<Attribute>) {
    forall i :: 0 <= i < |attrs| ==> |attrs[i].name| > 0
  }

  predicate TargetsPresent(rels: seq<Relationship>) {
    forall k :: 0 <= k < |rels| ==> |rels[k].targetEntity| > 0
  }

  function AttributeAccessors(attrs: seq<Attribute>): seq<string>
    requires NamesPresent(attrs)
  {
    seq(|attrs|, i requires 0 <= i < |attrs| => AccessorBlock(attrs[i].javaType, attrs[i].name))
  }

  function RelationshipAccessors(rels: seq<Relationship>): seq<string>
    requires TargetsPresent(rels)
  {
    seq(|rels|, k requires 0 <= k < |rels| => AccessorBlock(RelationshipJavaType(rels[k]), RelationshipField(rels[k])))
  }

  lemma AttributeAccessorsSnoc(attrs: seq<Attribute>, i: nat)
    requires i < |attrs| && NamesPresent(attrs)
    ensures NamesPresent(attrs[..i]) && NamesPresent(attrs[..i + 1])
    ensures AttributeAccessors(attrs[..i + 1]) == AttributeAccessors(attrs[..i]) + [AccessorBlock(attrs[i].javaType, attrs[i].name)]
  {
  }

  lemma RelationshipAccessorsSnoc(rels: seq<Relationship>, k: nat)
    requires k < |rels| && TargetsPresent(rels)
    ensures TargetsPresent(rels[..k]) && TargetsPresent(rels[..k + 1])
    ensures RelationshipAccessors(rels[..k + 1])
      == RelationshipAccessors(rels[..k]) + [AccessorBlock(RelationshipJavaType(rels[k]), RelationshipField(rels[k]))]
  {
  }

  /** Every attribute (primary key included) and then every relationship gets a getter and a setter. */
  method GenerateAccessors(attributes: seq<Attribute>, relationships: seq<Relationship>) returns (code: string)
    requires NamesPresent(attributes) && TargetsPresent(relationships)
    ensures code == Join(AttributeAccessors(attributes) + RelationshipAccessors(relationships), "\n")
  {
    var gettersSetters: seq<string> := [];
    for i := 0 to |attributes|
      invariant gettersSetters == AttributeAccessors(attributes[..i])
    {
      var attr := attributes[i];
      AttributeAccessorsSnoc(attributes, i);
      var name := attr.name;
      var javaType := attr.javaType;
      var nameCapitalized := Capitalize(name);
      var getterSetter := "\n    public " + javaType + " get" + nameCapitalized + "() {" + "\n        return " + name
        + ";\n    }\n\n    public void set" + nameCapitalized + "(" + javaType + " " + name
        + ") {\n        this." + name + " = " + name + ";\n    }\n";
      assert getterSetter == AccessorBlock(javaType, name);
      gettersSetters := gettersSetters + [getterSetter];
    }
    assert attributes[..|attributes|] == attributes;
    for k := 0 to |relationships|
      invariant gettersSetters == AttributeAccessors(attributes) + RelationshipAccessors(relationships[..k])
    {
      var rel := relationships[k];
      RelationshipAccessorsSnoc(relationships, k);
      var target := rel.targetEntity;
      var fieldName := LowerFirst(target);
      var javaType;
      if rel.relType == "OneToMany" {
        fieldName := fieldName + "s";
        javaType := "List<" + target + ">";
      } else {
        javaType := target;
      }
      assert fieldName == RelationshipField(rel) && javaType == RelationshipJavaType(rel);
      var nameCapitalized := Capitalize(fieldName);
      var getterSetter := "\n    public " + javaType + " get" + nameCapitalized + "() {" + "\n        return " + fieldName
        + ";\n    }\n\n    public void set" + nameCapitalized + "(" + javaType + " " + fieldName
        + ") {\n        this." + fieldName + " = " + fieldName + ";\n    }\n";
      assert getterSetter == AccessorBlock(javaType, fieldName);
      gettersSetters := gettersSetters + [getterSetter];
    }
    assert relationships[..|relationships|] == relationships;
    code := Join(gettersSetters, "\n");
  }

  /** The accessor of a field is `get`/`set` followed by the field name with its first character upper-cased. */
  lemma AccessorNaming(javaType: string, name: string)
    requires |name| > 0
    ensures var head := "\n    public " + javaType + " get" + Capitalize(name) + "() {";
      |head| <= |AccessorBlock(javaType, name)| && AccessorBlock(javaType, name)[..|head|] == head
    ensures Capitalize(name) == [UpperChar(name[0])] + name[1..]
  {
    var cap := Capitalize(name);
    var head := "\n    public " + javaType + " get" + cap + "() {";
    var rest := "\n        return " + name + ";\n    }\n\n    public void set" + cap + "(" + javaType + " " + name
      + ") {\n        this." + name + " = " + name + ";\n    }\n";
    assert AccessorBlock(javaType, name) == head + rest;
    PrefixAppend(head, head, rest);
  }

  /**
   * The field the relationship loop declares has exactly the type and name the
   * accessor loop derives for it, so each getter returns an existing field.
   */
  lemma RelationshipFieldMatches(r: Relationship)
    requires Ready(r) && (r.relType == "ManyToOne" || r.relType == "OneToMany")
    ensures RelationshipBlock(r).Some?
    ensures var b := RelationshipBlock(r).value;
      var d := Declaration(RelationshipJavaType(r), RelationshipField(r)) + "\n";
      |d| <= |b| && b[|b| - |d|..] == d
  {
    var b := RelationshipBlock(r).value;
    var d := Declaration(RelationshipJavaType(r), RelationshipField(r)) + "\n";
    var target := r.targetEntity;
    var head :=
      if r.relType == "ManyToOne" then
        "\n    @ManyToOne\n" + "    @JoinColumn(name = \"" + r.joinColumn.value
        + "\", nullable = " + JavaBool(!r.optional.GetOr(false)) + ")\n"
      else "\n    @OneToMany(mappedBy = \"" + r.mappedBy.value + "\")\n";
    assert b == head + d;
  }

  /** For a class name starting with an upper-case letter, the getter is `get<Target>`, or `get<Target>s` for a list. */
  lemma RelationshipAccessorName(r: Relationship)
    requires |r.targetEntity| > 0 && IsUpperAscii(r.targetEntity[0])
    ensures Capitalize(RelationshipField(r)) == r.targetEntity + (if r.relType == "OneToMany" then "s" else "")
  {
    var t := r.targetEntity;
    CapitalizeLowerFirst(t);
    var suffix := if r.relType == "OneToMany" then "s" else "";
    assert RelationshipField(r) == LowerFirst(t) + suffix;
    assert Capitalize(LowerFirst(t) + suffix) == Capitalize(LowerFirst(t)) + suffix;
  }

  /**
   * A primary key gets a getter and a setter but no field: with a template that
   * already declares the key and its accessors, `getId` appears twice.
   */
  lemma KeyAccessorWithoutField(attrs: seq<Attribute>, rels: seq<Relationship>, i: nat)
    requires NamesPresent(attrs) && TargetsPresent(rels)
    requires i < |attrs| && IsPrimaryKey(attrs[i])
    ensures attrs[i] !in NonKeyAttributes(attrs)
    ensures AccessorBlock(attrs[i].javaType, attrs[i].name) in AttributeAccessors(attrs) + RelationshipAccessors(rels)
    ensures |AttributeAccessors(attrs) + RelationshipAccessors(rels)| == |attrs| + |rels|
  {
    NonKeyAttributesMembers(attrs);
    assert (AttributeAccessors(attrs) + RelationshipAccessors(rels))[i] == AccessorBlock(attrs[i].javaType, attrs[i].name);
  }

  /** `Invernadero.sensors` (generated Invernadero.java). */
  lemma SensorsRelationship()
    ensures RelationshipBlock(Relationship("OneToMany", "Sensor", None, Some("invernadero"), None))
      == Some("\n    @OneToMany(mappedBy = \"" + "invernadero" + "\")\n" + "    private List<Sensor> sensors;" + "\n")
  {
    assert LowerFirst("Sensor") + "s" == "sensors";
    assert Declaration("List<" + "Sensor" + ">", "sensors") == "    private List<Sensor> sensors;";
  }

  /** `Alerta.sensor`, an optional many-to-one (generated Alerta.java). */
  lemma OptionalSensorRelationship()
    ensures RelationshipBlock(Relationship("ManyToOne", "Sensor", Some("sensor_id"), None, Some(true)))
      == Some("\n    @ManyToOne\n" + "    @JoinColumn(name = \"" + "sensor_id" + "\", nullable = " + "false" + ")\n"
              + "    private Sensor sensor;" + "\n")
  {
    assert LowerFirst("Sensor") == "sensor";
    assert Declaration("Sensor", "sensor") == "    private Sensor sensor;";
    assert JavaBool(!true) == "false";
  }

  // ---------------------------------------------------------------------------
  // `generar_imports`

  const JavaxImport: string := "import javax.persistence.*;"
  const BigDecimalImport: string := "import java.math.BigDecimal;"
  const LocalDateImport: string := "import java.time.LocalDate;"
  const LocalDateTimeImport: string := "import java.time.LocalDateTime;"
  const ListImport: string := "import java.util.List;"

  /** The import a field type needs, if any. */
  function TypeImport(javaType: string): Option<string> {
    if javaType == "LocalDate" then Some(LocalDateImport)
    else if javaType == "LocalDateTime" then Some(LocalDateTimeImport)
    else if javaType == "BigDecimal" then Some(BigDecimalImport)
    else None
  }

  /** The imports the attribute loop adds. */
  function AttributeImports(attrs: seq<Attribute>): set<string>
    decreases |attrs|
  {
    if attrs == [] then {}
    else
      AttributeImports(attrs[..|attrs| - 1])
      + (match TypeImport(attrs[|attrs| - 1].javaType) case Some(x) => {x} case None => {})
  }

  predicate HasOneToMany(rels: seq<Relationship>) {
    exists k :: 0 <= k < |rels| && rels[k].relType == "OneToMany"
  }

  /** The set `generar_imports` builds before sorting it. */
  function ImportSet(attrs: seq<Attribute>, rels: seq<Relationship>): set<string> {
    {JavaxImport} + AttributeImports(attrs) + (if HasOneToMany(rels) then {ListImport} else {})
  }

  /** Every import the generator knows, in increasing order. */
  const ImportOrder: seq<string> := [BigDecimalImport, LocalDateImport, LocalDateTimeImport, ListImport, JavaxImport]

  /** The elements of `order` that are in `s`, in the order of `order`. */
  function Present(order: seq<string>, s: set<string>): seq<string>
    decreases |order|
  {
    if order == [] then [] else (if order[0] in s then [order[0]] else []) + Present(order[1..], s)
  }

  /** The import lines of a class, one per needed import, in increasing order. */
  function ImportLines(attrs: seq<Attribute>, rels: seq<Relationship>): seq<string> {
    Present(ImportOrder, ImportSet(attrs, rels))
  }

  /** The import block: a set of import lines, sorted and joined by newlines. */
  method GenerateImports(attributes: seq<Attribute>, relationships: seq<Relationship>) returns (code: string)
    ensures code == Join(ImportLines(attributes, relationships), "\n")
  {
    var imports: set<string> := {JavaxImport};
    for i := 0 to |attributes|
      invariant imports == {JavaxImport} + AttributeImports(attributes[..i])
    {
      assert attributes[..i + 1][..i] == attributes[..i];
      var javaType := attributes[i].javaType;
      if javaType == "LocalDate" {
        imports := imports + {LocalDateImport};
      } else if javaType == "LocalDateTime" {
        imports := imports + {LocalDateTimeImport};
      } else if javaType == "BigDecimal" {
        imports := imports + {BigDecimalImport};
      }
    }
    assert attributes[..|attributes|] == attributes;
    ghost var base := imports;
    if |relationships| > 0 {
      var k := 0;
      while k < |relationships|
        invariant 0 <= k <= |relationships|
        invariant forall j :: 0 <= j < k ==> relationships[j].relType != "OneToMany"
        invariant imports == base
      {
        if relationships[k].relType == "OneToMany" {
          imports := imports + {ListImport};
          break;
        }
        k := k + 1;
      }
    }
    assert imports == ImportSet(attributes, relationships);
    var lines := Ordering.Sorted(imports);
    ImportLinesSorted(attributes, relationships);
    Ordering.StrictlySortedUnique(lines, ImportLines(attributes, relationships));
    code := Join(lines, "\n");
  }

  lemma {:induction false} PresentMembers(order: seq<string>, s: set<string>)
    ensures forall x :: x in Present(order, s) <==> x in order && x in s
    decreases |order|
  {
    if order != [] {
      PresentMembers(order[1..], s);
      assert order == [order[0]] + order[1..];
    }
  }

  lemma {:induction false} PresentSorted(order: seq<string>, s: set<string>)
    requires Ordering.StrictlySorted(order)
    ensures Ordering.StrictlySorted(Present(order, s))
    decreases |order|
  {
    if order != [] {
      var rest := Present(order[1..], s);
      assert Ordering.StrictlySorted(order[1..]) by {
        forall i, j | 0 <= i < j < |order[1..]|
          ensures Ordering.LexLess(order[1..][i], order[1..][j])
        {
          assert order[1..][i] == order[i + 1] && order[1..][j] == order[j + 1];
        }
      }
      PresentSorted(order[1..], s);
      PresentMembers(order[1..], s);
      if order[0] in s {
        var p := [order[0]] + rest;
        forall i, j | 0 <= i < j < |p|
          ensures Ordering.LexLess(p[i], p[j])
        {
          if i == 0 {
            assert p[j] in order[1..];
            var m :| 0 <= m < |order[1..]| && order[1..][m] == p[j];
            assert order[m + 1] == p[j];
          } else {
            assert p[i] == rest[i - 1] && p[j] == rest[j - 1];
          }
        }
      }
    }
  }

  lemma BigDecimalBeforeLocalDate()
    ensures Ordering.LexLess(BigDecimalImport, LocalDateImport)
  {
    assert BigDecimalImport[..12] == LocalDateImport[..12];
    Ordering.LexLessAt(BigDecimalImport, LocalDateImport, 12);
  }

  lemma LocalDateBeforeLocalDateTime()
    ensures Ordering.LexLess(LocalDateImport, LocalDateTimeImport)
  {
    assert LocalDateImport[..26] == LocalDateTimeImport[..26];
    Ordering.LexLessAt(LocalDateImport, LocalDateTimeImport, 26);
  }

  lemma LocalDateTimeBeforeList()
    ensures Ordering.LexLess(LocalDateTimeImport, ListImport)
  {
    assert LocalDateTimeImport[..12] == ListImport[..12];
    Ordering.LexLessAt(LocalDateTimeImport, ListImport, 12);
  }

  lemma ListBeforeJavax()
    ensures Ordering.LexLess(ListImport, JavaxImport)
  {
    assert ListImport[..11] == JavaxImport[..11];
    Ordering.LexLessAt(ListImport, JavaxImport, 11);
  }

  lemma ImportOrderSorted()
    ensures Ordering.StrictlySorted(ImportOrder)
  {
    BigDecimalBeforeLocalDate();
    LocalDateBeforeLocalDateTime();
    LocalDateTimeBeforeList();
    ListBeforeJavax();
    ChainOfFive(BigDecimalImport, LocalDateImport, LocalDateTimeImport, ListImport, JavaxImport);
  }

  lemma ChainOfFive(a: string, b: string, c: string, d: string, e: string)
    requires Ordering.LexLess(a, b) && Ordering.LexLess(b, c) && Ordering.LexLess(c, d) && Ordering.LexLess(d, e)
    ensures Ordering.StrictlySorted([a, b, c, d, e])
  {
    Ordering.ChainSorted([a, b, c, d, e]);
  }

  lemma {:induction false} AttributeImportsMembers(attrs: seq<Attribute>)
    ensures forall x :: x in AttributeImports(attrs) <==>
      exists i :: 0 <= i < |attrs| && TypeImport(attrs[i].javaType) == Some(x)
    decreases |attrs|
  {
    if attrs != [] {
      var init := attrs[..|attrs| - 1];
      AttributeImportsMembers(init);
      forall x
        ensures x in AttributeImports(attrs) <==>
          exists i :: 0 <= i < |attrs| && TypeImport(attrs[i].javaType) == Some(x)
      {
        if exists i :: 0 <= i < |init| && TypeImport(init[i].javaType) == Some(x) {
          var i :| 0 <= i < |init| && TypeImport(init[i].javaType) == Some(x);
          assert attrs[i] == init[i];
        }
        if exists i :: 0 <= i < |attrs| && TypeImport(attrs[i].javaType) == Some(x) {
          var i :| 0 <= i < |attrs| && TypeImport(attrs[i].javaType) == Some(x);
          if i < |init| {
            assert init[i] == attrs[i];
          }
        }
      }
    }
  }

  /** The attribute loop only ever adds one of the three type imports. */
  lemma AttributeImportsKnown(attrs: seq<Attribute>)
    ensures forall x :: x in AttributeImports(attrs) ==>
      x == LocalDateImport || x == LocalDateTimeImport || x == BigDecimalImport
  {
    AttributeImportsMembers(attrs);
    forall x | x in AttributeImports(attrs)
      ensures x == LocalDateImport || x == LocalDateTimeImport || x == BigDecimalImport
    {
      var i :| 0 <= i < |attrs| && TypeImport(attrs[i].javaType) == Some(x);
    }
  }

  /** The five import lines are pairwise different. */
  lemma ImportsDistinct()
    ensures JavaxImport != ListImport && JavaxImport != LocalDateImport
    ensures JavaxImport != LocalDateTimeImport && JavaxImport != BigDecimalImport
    ensures ListImport != LocalDateImport && ListImport != LocalDateTimeImport && ListImport != BigDecimalImport
    ensures LocalDateImport != LocalDateTimeImport && LocalDateImport != BigDecimalImport
    ensures LocalDateTimeImport != BigDecimalImport
  {
    assert |JavaxImport| == 27 && |ListImport| == 22 && |LocalDateImport| == 27;
    assert |LocalDateTimeImport| == 31 && |BigDecimalImport| == 28;
    assert JavaxImport[11] == 'x' && LocalDateImport[11] == '.';
  }

  /** Every import the generator can collect is one it knows the order of. */
  lemma ImportSetKnown(attrs: seq<Attribute>, rels: seq<Relationship>)
    ensures forall x :: x in ImportSet(attrs, rels) ==> x in ImportOrder
  {
    AttributeImportsKnown(attrs);
    forall x | x in ImportSet(attrs, rels)
      ensures x in ImportOrder
    {
      if x == BigDecimalImport {
        assert ImportOrder[0] == x;
      } else if x == LocalDateImport {
        assert ImportOrder[1] == x;
      } else if x == LocalDateTimeImport {
        assert ImportOrder[2] == x;
      } else if x == ListImport {
        assert ImportOrder[3] == x;
      } else {
        assert ImportOrder[4] == x;
      }
    }
  }

  /** The sorted lines hold exactly the imports the generator collected, sorted and each once. */
  lemma ImportLinesSorted(attrs: seq<Attribute>, rels: seq<Relationship>)
    ensures Ordering.StrictlySorted(ImportLines(attrs, rels))
    ensures forall x :: x in ImportLines(attrs, rels) <==> x in ImportSet(attrs, rels)
  {
    var s := ImportSet(attrs, rels);
    ImportOrderSorted();
    PresentSorted(ImportOrder, s);
    PresentMembers(ImportOrder, s);
    ImportSetKnown(attrs, rels);
  }

  /** Each type import belongs to exactly one Java type. */
  lemma TypeImportCases(javaType: string)
    ensures TypeImport(javaType) == Some(LocalDateImport) <==> javaType == "LocalDate"
    ensures TypeImport(javaType) == Some(LocalDateTimeImport) <==> javaType == "LocalDateTime"
    ensures TypeImport(javaType) == Some(BigDecimalImport) <==> javaType == "BigDecimal"
  {
    ImportsDistinct();
  }

  /** A type import is collected exactly when some attribute has that type. */
  lemma TypeImportPresent(attrs: seq<Attribute>, javaType: string, line: string)
    requires TypeImport(javaType) == Some(line)
    ensures line in AttributeImports(attrs) <==> exists i :: 0 <= i < |attrs| && attrs[i].javaType == javaType
  {
    AttributeImportsMembers(attrs);
    TypeImportCases(javaType);
    if line in AttributeImports(attrs) {
      var i :| 0 <= i < |attrs| && TypeImport(attrs[i].javaType) == Some(line);
      TypeImportCases(attrs[i].javaType);
    }
    if exists i :: 0 <= i < |attrs| && attrs[i].javaType == javaType {
      var i :| 0 <= i < |attrs| && attrs[i].javaType == javaType;
      assert TypeImport(attrs[i].javaType) == Some(line);
    }
  }

  /** What the collected set holds, import by import. */
  lemma ImportSetContents(attrs: seq<Attribute>, rels: seq<Relationship>)
    ensures JavaxImport in ImportSet(attrs, rels)
    ensures ListImport in ImportSet(attrs, rels) <==> HasOneToMany(rels)
    ensures LocalDateImport in ImportSet(attrs, rels) <==>
      exists i :: 0 <= i < |attrs| && attrs[i].javaType == "LocalDate"
    ensures LocalDateTimeImport in ImportSet(attrs, rels) <==>
      exists i :: 0 <= i < |attrs| && attrs[i].javaType == "LocalDateTime"
    ensures BigDecimalImport in ImportSet(attrs, rels) <==>
      exists i :: 0 <= i < |attrs| && attrs[i].javaType == "BigDecimal"
  {
    ImportsDistinct();
    AttributeImportsKnown(attrs);
    TypeImportPresent(attrs, "LocalDate", LocalDateImport);
    TypeImportPresent(attrs, "LocalDateTime", LocalDateTimeImport);
    TypeImportPresent(attrs, "BigDecimal", BigDecimalImport);
  }

  /**
   * The import lines are sorted and free of duplicates; `javax.persistence.*`
   * is always there; `LocalDate`, `LocalDateTime` and `BigDecimal` are there
   * exactly when some attribute has that type; `java.util.List` exactly when
   * some relationship is one-to-many; no other line appears.
   */
  lemma ImportLinesContents(attrs: seq<Attribute>, rels: seq<Relationship>)
    ensures Ordering.StrictlySorted(ImportLines(attrs, rels))
    ensures JavaxImport in ImportLines(attrs, rels)
    ensures ListImport in ImportLines(attrs, rels) <==> HasOneToMany(rels)
    ensures LocalDateImport in ImportLines(attrs, rels) <==>
      exists i :: 0 <= i < |attrs| && attrs[i].javaType == "LocalDate"
    ensures LocalDateTimeImport in ImportLines(attrs, rels) <==>
      exists i :: 0 <= i < |attrs| && attrs[i].javaType == "LocalDateTime"
    ensures BigDecimalImport in ImportLines(attrs, rels) <==>
      exists i :: 0 <= i < |attrs| && attrs[i].javaType == "BigDecimal"
    ensures forall x :: x in ImportLines(attrs, rels) ==> x in ImportOrder
  {
    PresentMembers(ImportOrder, ImportSet(attrs, rels));
    var lines, s := ImportLines(attrs, rels), ImportSet(attrs, rels);
    ImportLinesSorted(attrs, rels);
    ImportSetContents(attrs, rels);
    assert JavaxImport in s && (ListImport in s <==> HasOneToMany(rels));
  }
}
