/**
 * `generar_entity` of `generar_entities.py`: the generated fragments of one
 * entity replace the placeholders of the class template, one placeholder
 * after the other.
 */
module EntityFile {
  import opened Wrappers
  import opened Strings
  import opened Template
  import G = EntityGen

  /** The keys the generators read are present for this entity. */
  predicate Generable(e: G.Entity) {
    var rels := e.relationships.GetOr([]);
    G.NamesPresent(e.attributes) && G.AllReady(rels) && G.TargetsPresent(rels)
  }

  function Imports(e: G.Entity): string {
    Join(G.ImportLines(e.attributes, e.relationships.GetOr([])), "\n")
  }

  function Fields(e: G.Entity): string {
    Join(G.FieldBlocks(e.attributes), "\n")
  }

  function Relations(e: G.Entity): string
    requires Generable(e)
  {
    Join(G.RelationshipBlocks(e.relationships.GetOr([])), "\n")
  }

  function Accessors(e: G.Entity): string
    requires Generable(e)
  {
    var rels := e.relationships.GetOr([]);
    Join(G.AttributeAccessors(e.attributes) + G.RelationshipAccessors(rels), "\n")
  }

  /** The class text: the template with each placeholder replaced, in the order the generator replaces them. */
  function EntityText(e: G.Entity, template: string): string
    requires Generable(e)
  {
    var codigo := ReplaceAll(template, "$IMPORTS$", Imports(e));
    var codigo := ReplaceAll(codigo, "$CLASS_NAME$", e.name);
    var codigo := ReplaceAll(codigo, "$TABLE_NAME$", e.tableName);
    var codigo := ReplaceAll(codigo, "$ATRIBUTOS$", Fields(e));
    var codigo := ReplaceAll(codigo, "$RELACIONES$", Relations(e));
    ReplaceAll(codigo, "$GETTERS_SETTERS$", Accessors(e))
  }

  /** Generates the class of one entity from the template; absent relationships count as none. */
  method GenerateEntity(entity: G.Entity, template: string) returns (codigo: string)
    requires Generable(entity)
    ensures codigo == EntityText(entity, template)
  {
    var className := entity.name;
    var tableName := entity.tableName;
    var attributes := entity.attributes;
    var relationships := entity.relationships.GetOr([]);
    var imports := G.GenerateImports(attributes, relationships);
    var atributos := G.GenerateAttributes(attributes);
    var relaciones := G.GenerateRelationships(relationships);
    var gettersSetters := G.GenerateAccessors(attributes, relationships);
    codigo := ReplaceAll(template, "$IMPORTS$", imports);
    codigo := ReplaceAll(codigo, "$CLASS_NAME$", className);
    codigo := ReplaceAll(codigo, "$TABLE_NAME$", tableName);
    codigo := ReplaceAll(codigo, "$ATRIBUTOS$", atributos);
    codigo := ReplaceAll(codigo, "$RELACIONES$", relaciones);
    codigo := ReplaceAll(codigo, "$GETTERS_SETTERS$", gettersSetters);
  }

  /** An entity without a `relationships` key generates the same class as one with an empty list. */
  lemma MissingRelationshipsAsEmpty(e: G.Entity, template: string)
    requires Generable(e) && e.relationships.None?
    ensures Generable(e.(relationships := Some([])))
    ensures EntityText(e, template) == EntityText(e.(relationships := Some([])), template)
    ensures Relations(e) == "" && !G.HasOneToMany(e.relationships.GetOr([]))
  {
  }

  /** The placeholder names, in the order they are replaced. */
  const PlaceholderNames: seq<string> :=
    ["IMPORTS", "CLASS_NAME", "TABLE_NAME", "ATRIBUTOS", "RELACIONES", "GETTERS_SETTERS"]

  /** What each placeholder stands for in the class of `e`. */
  function Env(e: G.Entity): map<string, string>
    requires Generable(e)
  {
    map[
      "IMPORTS" := Imports(e),
      "CLASS_NAME" := e.name,
      "TABLE_NAME" := e.tableName,
      "ATRIBUTOS" := Fields(e),
      "RELACIONES" := Relations(e),
      "GETTERS_SETTERS" := Accessors(e)]
  }

  lemma PlaceholderNamesValid()
    ensures forall k :: 0 <= k < |PlaceholderNames| ==> IsPlaceholderName(PlaceholderNames[k])
  {
    forall k | 0 <= k < |PlaceholderNames|
      ensures IsPlaceholderName(PlaceholderNames[k])
    {
      var n := PlaceholderNames[k];
      forall i | 0 <= i < |n| ensures IsPlaceholderChar(n[i]) {
      }
    }
  }

  /** The placeholders of the class header as they are written in the template. */
  lemma HeaderPlaceholderTokens()
    ensures Token("IMPORTS") == "$IMPORTS$"
    ensures Token("CLASS_NAME") == "$CLASS_NAME$"
    ensures Token("TABLE_NAME") == "$TABLE_NAME$"
  {
  }

  /** The placeholders of the class body as they are written in the template. */
  lemma BodyPlaceholderTokens()
    ensures Token("ATRIBUTOS") == "$ATRIBUTOS$"
    ensures Token("RELACIONES") == "$RELACIONES$"
    ensures Token("GETTERS_SETTERS") == "$GETTERS_SETTERS$"
  {
  }

  /** The generator's replacement chain is `ReplaceEach` over the placeholder names in order. */
  lemma EntityTextReplacesInOrder(e: G.Entity, template: string)
    requires Generable(e)
    ensures forall k :: 0 <= k < |PlaceholderNames| ==>
      IsPlaceholderName(PlaceholderNames[k]) && PlaceholderNames[k] in Env(e)
    ensures EntityText(e, template) == ReplaceEach(template, PlaceholderNames, Env(e))
  {
    PlaceholderNamesValid();
    HeaderPlaceholderTokens();
    BodyPlaceholderTokens();
    var ns, env := PlaceholderNames, Env(e);
    assert ns[1..][1..][1..][1..][1..][1..] == [];
  }

  /** No '$' in any text of the entity that ends up in the class. */
  predicate DollarFree(e: G.Entity) {
    var rels := e.relationships.GetOr([]);
    && '$' !in e.name && '$' !in e.tableName
    && (forall i :: 0 <= i < |e.attributes| ==>
          '$' !in e.attributes[i].name && '$' !in e.attributes[i].javaType)
    && (forall k :: 0 <= k < |rels| ==>
          && '$' !in rels[k].targetEntity
          && '$' !in rels[k].joinColumn.GetOr("")
          && '$' !in rels[k].mappedBy.GetOr(""))
  }

  lemma ImportConstantsDollarFree()
    ensures '$' !in G.JavaxImport && '$' !in G.ListImport && '$' !in G.LocalDateImport
    ensures '$' !in G.LocalDateTimeImport && '$' !in G.BigDecimalImport
  {
  }

  lemma ImportsDollarFree(e: G.Entity)
    ensures '$' !in Imports(e)
  {
    ImportConstantsDollarFree();
    var rels := e.relationships.GetOr([]);
    var lines := G.ImportLines(e.attributes, rels);
    G.ImportLinesSorted(e.attributes, rels);
    G.AttributeImportsKnown(e.attributes);
    forall i | 0 <= i < |lines| ensures '$' !in lines[i] {
      assert lines[i] in G.ImportSet(e.attributes, rels);
    }
    JoinDollarFree(lines, "\n");
  }

  lemma ParamTextDollarFree(p: G.ColumnParam)
    ensures '$' !in G.ParamText(p)
  {
    if p.LengthParam? {
      IntToStringRoundTrip(p.n);
    }
  }

  lemma ParamTextsDollarFree(ps: seq<G.ColumnParam>)
    ensures forall k :: 0 <= k < |G.ParamTexts(ps)| ==> '$' !in G.ParamTexts(ps)[k]
  {
    forall k | 0 <= k < |ps| ensures '$' !in G.ParamText(ps[k]) {
      ParamTextDollarFree(ps[k]);
    }
  }

  lemma ColumnLineDollarFree(a: G.Attribute)
    ensures '$' !in G.ColumnLine(a)
  {
    var texts := G.ParamTexts(G.ColumnParams(a));
    ParamTextsDollarFree(G.ColumnParams(a));
    JoinDollarFree(texts, ", ");
  }

  lemma AnnotationLinesDollarFree(a: G.Attribute)
    ensures forall k :: 0 <= k < |G.AnnotationLines(a)| ==> '$' !in G.AnnotationLines(a)[k]
  {
    ColumnLineDollarFree(a);
    assert '$' !in G.IdLine && '$' !in G.GeneratedValueLine;
  }

  lemma FieldBlockDollarFree(a: G.Attribute)
    requires '$' !in a.name && '$' !in a.javaType
    ensures '$' !in G.FieldBlock(a)
  {
    AnnotationLinesDollarFree(a);
    JoinDollarFree(G.AnnotationLines(a), "\n");
    assert '$' !in G.Declaration(a.javaType, a.name);
  }

  lemma {:induction false} FieldBlocksDollarFree(attrs: seq<G.Attribute>)
    requires forall i :: 0 <= i < |attrs| ==> '$' !in attrs[i].name && '$' !in attrs[i].javaType
    ensures forall k :: 0 <= k < |G.FieldBlocks(attrs)| ==> '$' !in G.FieldBlocks(attrs)[k]
    decreases |attrs|
  {
    if attrs != [] {
      var a := attrs[|attrs| - 1];
      FieldBlocksDollarFree(attrs[..|attrs| - 1]);
      FieldBlockDollarFree(a);
    }
  }

  lemma ManyToOneBlockDollarFree(r: G.Relationship)
    requires G.Ready(r) && r.relType == "ManyToOne"
    requires '$' !in r.targetEntity && '$' !in r.joinColumn.GetOr("")
    ensures '$' !in G.RelationshipBlock(r).value
  {
    var t := r.targetEntity;
    FirstCaseKeepsDollar(t);
    var head := "\n    @ManyToOne\n" + "    @JoinColumn(name = \"" + r.joinColumn.value;
    var mid := head + "\", nullable = " + G.JavaBool(!r.optional.GetOr(false)) + ")\n";
    assert '$' !in head;
    assert '$' !in mid;
    assert '$' !in G.Declaration(t, LowerFirst(t));
    assert G.RelationshipBlock(r).value == mid + G.Declaration(t, LowerFirst(t)) + "\n";
  }

  lemma OneToManyBlockDollarFree(r: G.Relationship)
    requires G.Ready(r) && r.relType == "OneToMany"
    requires '$' !in r.targetEntity && '$' !in r.mappedBy.GetOr("")
    ensures '$' !in G.RelationshipBlock(r).value
  {
    var t := r.targetEntity;
    FirstCaseKeepsDollar(t);
    assert '$' !in G.Declaration("List<" + t + ">", LowerFirst(t) + "s");
  }

  lemma RelationshipBlockDollarFree(r: G.Relationship)
    requires G.Ready(r)
    requires '$' !in r.targetEntity && '$' !in r.joinColumn.GetOr("") && '$' !in r.mappedBy.GetOr("")
    ensures G.RelationshipBlock(r).Some? ==> '$' !in G.RelationshipBlock(r).value
  {
    if r.relType == "ManyToOne" {
      ManyToOneBlockDollarFree(r);
    } else if r.relType == "OneToMany" {
      OneToManyBlockDollarFree(r);
    }
  }

  lemma {:induction false} RelationshipBlocksDollarFree(rels: seq<G.Relationship>)
    requires G.AllReady(rels)
    requires forall k :: 0 <= k < |rels| ==>
      '$' !in rels[k].targetEntity && '$' !in rels[k].joinColumn.GetOr("") && '$' !in rels[k].mappedBy.GetOr("")
    ensures forall k :: 0 <= k < |G.RelationshipBlocks(rels)| ==> '$' !in G.RelationshipBlocks(rels)[k]
    decreases |rels|
  {
    if rels != [] {
      var r := rels[|rels| - 1];
      RelationshipBlocksDollarFree(rels[..|rels| - 1]);
      RelationshipBlockDollarFree(r);
    }
  }

  lemma AccessorBlockDollarFree(javaType: string, name: string)
    requires |name| > 0 && '$' !in javaType && '$' !in name
    ensures '$' !in G.AccessorBlock(javaType, name)
  {
    FirstCaseKeepsDollar(name);
  }

  lemma AccessorsDollarFree(e: G.Entity)
    requires Generable(e) && DollarFree(e)
    ensures '$' !in Accessors(e)
  {
    var rels := e.relationships.GetOr([]);
    var blocks := G.AttributeAccessors(e.attributes) + G.RelationshipAccessors(rels);
    forall k | 0 <= k < |blocks| ensures '$' !in blocks[k] {
      if k < |e.attributes| {
        AccessorBlockDollarFree(e.attributes[k].javaType, e.attributes[k].name);
      } else {
        var r := rels[k - |e.attributes|];
        FirstCaseKeepsDollar(r.targetEntity);
        AccessorBlockDollarFree(G.RelationshipJavaType(r), G.RelationshipField(r));
      }
    }
    JoinDollarFree(blocks, "\n");
  }

  lemma FieldsDollarFree(e: G.Entity)
    requires DollarFree(e)
    ensures '$' !in Fields(e)
  {
    FieldBlocksDollarFree(e.attributes);
    JoinDollarFree(G.FieldBlocks(e.attributes), "\n");
  }

  lemma RelationsDollarFree(e: G.Entity)
    requires Generable(e) && DollarFree(e)
    ensures '$' !in Relations(e)
  {
    var rels := e.relationships.GetOr([]);
    RelationshipBlocksDollarFree(rels);
    JoinDollarFree(G.RelationshipBlocks(rels), "\n");
  }

  lemma EnvDollarFree(e: G.Entity)
    requires Generable(e) && DollarFree(e)
    ensures forall n :: n in Env(e) ==> '$' !in Env(e)[n]
  {
    ImportsDollarFree(e);
    FieldsDollarFree(e);
    RelationsDollarFree(e);
    AccessorsDollarFree(e);
  }

  /**
   * For a template whose literal text has no '$', whose placeholders are the
   * six names (each followed by text that cannot continue a name), and an
   * entity whose texts have no '$', the replacement chain puts each fragment
   * exactly where its placeholder stood.
   */
  lemma EntityFillsTemplate(e: G.Entity, parts: seq<Part>)
    requires Generable(e) && DollarFree(e)
    requires WellFormed(parts)
    requires forall i :: 0 <= i < |parts| && parts[i].Slot? ==> parts[i].name in PlaceholderNames
    ensures forall i :: 0 <= i < |parts| && parts[i].Slot? ==> parts[i].name in Env(e)
    ensures EntityText(e, Render(parts)) == Instantiate(parts, Env(e))
  {
    EntityTextReplacesInOrder(e, Render(parts));
    EnvDollarFree(e);
    ReplaceEachInstantiates(parts, PlaceholderNames, Env(e));
  }
}
