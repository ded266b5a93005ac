# Greenhouse schema and entity generators, modelled in Dafny

The repository turns one JSON data model of a greenhouse-monitoring system
into two kinds of source text:

- `crear_base_datos.py` turns each entity into PostgreSQL DDL. Each attribute
  becomes a column definition: its name, its PostgreSQL type (from a
  case-insensitive type table with default lengths and precisions), and the
  constraint suffixes PRIMARY KEY, NOT NULL, UNIQUE and DEFAULT. `crear_tablas`
  runs in two phases. It first issues one `CREATE TABLE` per entity, plus a
  `COMMENT ON TABLE` when the entity has a description, and collects every
  foreign-key attribute. Then it issues one
  `ALTER TABLE … ADD CONSTRAINT fk_<tabla>_<columna> … ON DELETE CASCADE ON UPDATE CASCADE`
  per collected record.
- `generar_entities.py` turns each entity into a JPA entity class. It builds
  `@Id`/`@GeneratedValue`/`@Column(...)` annotations, field declarations
  (primary keys are skipped), `@ManyToOne`/`@OneToMany` relationship fields,
  a getter and setter for every attribute and relationship, and a sorted set
  of import lines. It then fills a class template by replacing the
  placeholders `$IMPORTS$`, `$CLASS_NAME$`, `$TABLE_NAME$`, `$ATRIBUTOS$`,
  `$RELACIONES$` and `$GETTERS_SETTERS$`, in that order.

The decoded JSON objects are datatypes. A key read with `.get(key, default)`
is an `Option` field, read through `GetOr(default)`. A key the source reads
with `obj[key]`, or a first character it takes with `s[0]`, must be present
when the source reaches it. Otherwise the source raises an exception it does
not handle, so the model states that condition as a precondition (`Ready`,
`HasReferences`, `NamesPresent`, `TargetsPresent`).

The loops of the source are methods with loop invariants. Each method that
models a source loop is proved equal to a specification function. The properties the generators
promise are proved about those functions as lemmas.

Modules, one file each:

- `Wrappers` (wrappers.dfy): `Option` and `GetOr`.
- `Strings` (strings.dfy): ASCII `lower`/`upper`, first-character case
  changes, `str(int)` proved to be the canonical decimal text of the number,
  and `sep.join`.
- `Ordering` (ordering.dfy): Python's `<` on strings, and `sorted` on a set
  of strings.
- `Template` (template.dfy): `str.replace`, and a theorem about chains of
  replacements over `$NAME$` templates.
- `SchemaDdl` (schema_ddl.dfy): `mapear_tipo_dato`,
  `generar_definicion_columna` and the statements of `crear_tablas`.
- `EntityGen` (entity_gen.dfy): `mapear_tipo_java`, `generar_atributos`,
  `generar_relaciones`, `generar_getters_setters` and `generar_imports`.
- `EntityFile` (entity_file.dfy): `generar_entity`.

## Model

| member | source | states |
|---|---|---|
| Strings.Lower | crear_base_datos.py:122 | the lowered text has the same length and no upper-case letter; each capital becomes the small letter it is the capital of, and every other character is kept |
| Strings.Upper | crear_base_datos.py:126 | the upper-cased text has the same length and no lower-case letter; each small letter becomes its capital, and every other character is kept |
| Strings.UpperOfLower | crear_base_datos.py:125-126 | upper-casing the lowered type name equals upper-casing the name as given |
| Strings.CapitalizeLowerFirst | generar_entities.py:182-190 | for a name starting with an upper-case letter, capitalising the lowered name gives the name back |
| Strings.IntToStringRoundTrip | crear_base_datos.py:129-141 | the rendering of an integer is canonical decimal text: a `-` exactly when it is negative, then a non-empty run of digits with no leading zero; it reads back as the integer and holds no `$` |
| Strings.DecimalIsRendering | crear_base_datos.py:129-141 | every canonical decimal text is the rendering of the number it reads as, so the rendering is the only decimal text of each integer, as `str(n)` is |
| Ordering.Least | generar_entities.py:234 | returns an element of the non-empty set that is smaller than every other element |
| Ordering.Sorted | generar_entities.py:234 | `sorted(set)` returns each element of the set exactly once, strictly increasing, and nothing else |
| Ordering.StrictlySortedUnique | generar_entities.py:234 | two strictly sorted sequences with the same elements are equal, so the sorted import list is unique |
| Template.ReplaceAbsent | generar_entities.py:256-261 | a text that does not contain the placeholder comes back unchanged from `replace` |
| Template.ReplaceFillsSlot | generar_entities.py:256 | on a well-formed template, one `replace` call fills exactly the slots of its own name and no others |
| Template.ReplaceEachInstantiates | generar_entities.py:256-261 | a chain of `replace` calls over a well-formed template equals putting each slot's value in its place, provided no value contains `$` |
| SchemaDdl.MapType | crear_base_datos.py:122-165 | whatever the spelling of `tipo_dato`, the PostgreSQL type comes out with no lower-case letter; the lemmas below give each branch |
| SchemaDdl.MapTypeCaseInsensitive | crear_base_datos.py:122 | two attributes whose type names agree once lowered (and whose length and precision agree) get the same PostgreSQL type |
| SchemaDdl.MapTypeIgnoresUpperCase | crear_base_datos.py:122 | writing the type name in upper case does not change the column type |
| SchemaDdl.MapTypeFixed | crear_base_datos.py:134-162 | text, integer/int, bigint, date, timestamp, time and boolean/bool map through a fixed table; `int` and `integer` give INTEGER, `bool` and `boolean` give BOOLEAN |
| SchemaDdl.MapTypeVarchar | crear_base_datos.py:129-131 | varchar gives `VARCHAR(255)` without `longitud` and `VARCHAR(<longitud>)` with it |
| SchemaDdl.MapTypeDecimal | crear_base_datos.py:138-141 | decimal and numeric both give `DECIMAL(<longitud>,<precision>)`, defaulting to `DECIMAL(10,2)` |
| SchemaDdl.MapTypePassThrough | crear_base_datos.py:122-165 | serial, bigserial and every unrecognised type name come back upper-cased and otherwise unchanged |
| SchemaDdl.DefaultLiteral | crear_base_datos.py:201-214 | a boolean default is written TRUE or FALSE, an integer as canonical decimal text that reads back as the value, a string either bare or in single quotes |
| SchemaDdl.DefaultLiteralCases | crear_base_datos.py:201-214 | CURRENT_TIMESTAMP and NOW() are written bare, booleans as TRUE/FALSE, other strings in single quotes without escaping, integers as `str(n)`, a JSON null as `None` |
| SchemaDdl.ColumnDefinition | crear_base_datos.py:182-186 | a column definition starts with `<nombre> <type>`, and is exactly that when the attribute asks for no clause |
| SchemaDdl.Suffixes | crear_base_datos.py:188-214 | every suffix starts with a space, and there is none exactly when the attribute is not pk, nullable, not unique and has no default |
| SchemaDdl.OptionalTextsOfClauseOrder | crear_base_datos.py:188-214 | the suffixes of a column are the texts of the requested clauses taken one by one in ClauseOrder |
| SchemaDdl.ColumnDefinitionClauses | crear_base_datos.py:182-214 | a column definition is `<nombre> <type>` followed by the texts of exactly the requested clauses, in ClauseOrder |
| SchemaDdl.ClausesOfClauseOrder | crear_base_datos.py:188-214 | the requested clauses are PRIMARY KEY if pk, NOT NULL if not nullable and not pk, UNIQUE if unique, DEFAULT if a default is given, in that order |
| SchemaDdl.ColumnClauseSelection | crear_base_datos.py:189-201 | NOT NULL appears iff `nulo` is false and `pk` is not true; PRIMARY KEY iff pk; never both; UNIQUE iff unique; DEFAULT iff the key is present |
| SchemaDdl.ColumnClausesOrdered | crear_base_datos.py:188-214 | the clauses of a column come in strictly increasing position PRIMARY KEY, NOT NULL, UNIQUE, DEFAULT |
| SchemaDdl.Sql | crear_base_datos.py:274-304 | every statement text sent to the cursor ends with a semicolon |
| SchemaDdl.CreateTableSql | crear_base_datos.py:274-278 | a CREATE TABLE text is `CREATE TABLE IF NOT EXISTS <tabla> (`, then exactly the column definitions joined by `, `, then `);` |
| SchemaDdl.CommentOnTableSql | crear_base_datos.py:285-287 | a table comment is `COMMENT ON TABLE <tabla> IS '`, then exactly the description, then `';` |
| SchemaDdl.ForeignKeySql | crear_base_datos.py:297-304 | a foreign-key statement is `ALTER TABLE <tabla> ADD CONSTRAINT fk_<tabla>_<columna>`, then exactly ` FOREIGN KEY (<columna>) REFERENCES <referencia>`, then ` ON DELETE CASCADE ON UPDATE CASCADE;` |
| SchemaDdl.AttributeForeignKeysAppend | crear_base_datos.py:261-271 | within one entity, the records of a concatenation of attributes are the concatenated records: collection follows attribute order |
| SchemaDdl.ForeignKeysAppend | crear_base_datos.py:254-271 | the records of a concatenation of entities are the concatenated records: collection follows entity order |
| SchemaDdl.ForeignKeysSingle | crear_base_datos.py:266-271 | one entity contributes the records of its own attributes; one attribute yields exactly one record if `fk` is true, none otherwise |
| SchemaDdl.TablePhaseHasNoForeignKeys | crear_base_datos.py:249-289 | phase one issues no foreign-key statement |
| SchemaDdl.TablePhaseCreatesEveryTable | crear_base_datos.py:254-282 | phase one creates every entity's table with that entity's column definitions |
| SchemaDdl.ForeignKeysAfterTables | crear_base_datos.py:247-307 | a statement is a foreign key iff it comes after all of phase one, and the k-th foreign-key statement is the k-th collected record |
| SchemaDdl.EntityColumns | crear_base_datos.py:259-271 | the inner loop yields one column definition per attribute, in order, and the foreign-key records of that entity |
| SchemaDdl.CreateTablePhase | crear_base_datos.py:247-289 | the entity loop sends the phase-one statements in entity order and ends with every foreign-key record collected |
| SchemaDdl.CreateTables | crear_base_datos.py:222-307 | the texts sent to the cursor are exactly those of the plan: all tables and comments, then all foreign keys |
| EntityGen.MapJavaType | generar_entities.py:55-90 | the annotation text is the annotation lines joined by newlines, and the Java type comes back unchanged |
| EntityGen.ColumnParamsSelected | generar_entities.py:72-82 | each `@Column` parameter appears iff its key asks for it: length iff present, `nullable = false` iff not nullable, `unique = true` iff unique, `columnDefinition` iff columnType is TEXT |
| EntityGen.ColumnParamsOrdered | generar_entities.py:72-82 | the parameters come strictly in the order length, nullable, unique, columnDefinition |
| EntityGen.EmptyColumnAnnotation | generar_entities.py:84-87 | the annotation is exactly `@Column()` iff there is no parameter |
| EntityGen.AnnotationFlags | generar_entities.py:62-88 | `@Id` appears iff primary key; `@GeneratedValue` iff primary key and auto-increment; the `@Column` line always comes last |
| EntityGen.TwoParamLine | generar_entities.py:84-88 | with exactly two parameters the annotation is `@Column(<first>, <second>)` |
| EntityGen.RequiredTextColumn | generated/entities/Alerta.java:22 | a required TEXT column without length gives `@Column(nullable = false, columnDefinition = "TEXT")` |
| EntityGen.SizedRequiredColumn | generated/entities/Invernadero.java:16 | length 100, not nullable gives `@Column(length = 100, nullable = false)` |
| EntityGen.GenerateAttributes | generar_entities.py:96-114 | the field code is the field blocks of the non-key attributes joined by newlines |
| EntityGen.NonKeyAttributesMembers | generar_entities.py:100-103 | an attribute keeps its field iff it is in the input and is not a primary key |
| EntityGen.FieldBlocksOfNonKeys | generar_entities.py:100-114 | exactly one field block per non-key attribute, in input order |
| EntityGen.GenerateRelationships | generar_entities.py:120-151 | the relationship code is the relationship blocks joined by newlines; none or an empty list gives the empty string |
| EntityGen.RelationshipAnnotations | generar_entities.py:131-149 | a ManyToOne block is `@ManyToOne`, `@JoinColumn(name = "<joinColumn>", nullable = <not optional>)` with an absent `optional` read as false (so `nullable = true`), then the field; a OneToMany block is `@OneToMany(mappedBy = "<mappedBy>")`, then the `List<…>` field |
| EntityGen.RelationshipBlockKinds | generar_entities.py:127-149 | only ManyToOne and OneToMany produce a block; any other type produces nothing |
| EntityGen.RelationshipBlocksAppend | generar_entities.py:127-151 | blocks are produced relationship by relationship, preserving order |
| EntityGen.RelationshipFieldMatches | generar_entities.py:181-188 | the field declared for a relationship has exactly the type and name the accessor loop derives (target lowered, plus `s` and `List<…>` for OneToMany) |
| EntityGen.OptionalSensorRelationship | generated/entities/Alerta.java:43-45 | an optional ManyToOne to Sensor on `sensor_id` gives the `@ManyToOne`/`@JoinColumn(..., nullable = false)`/`private Sensor sensor;` block |
| EntityGen.SensorsRelationship | generated/entities/Invernadero.java:48-49 | a OneToMany to Sensor mapped by `invernadero` gives `private List<Sensor> sensors;` |
| EntityGen.GenerateAccessors | generar_entities.py:157-203 | one getter/setter block per attribute (primary key included), then one per relationship, joined by newlines |
| EntityGen.AccessorNaming | generar_entities.py:165-168 | each accessor block starts with `public <type> get<Name>() {`, `<Name>` being the field name with its first character upper-cased |
| EntityGen.RelationshipAccessorName | generar_entities.py:182-190 | for a capitalised target, the relationship accessor is `get<Target>`, or `get<Target>s` for OneToMany |
| EntityGen.KeyAccessorWithoutField | generated/entities/Invernadero.java:61-75 | a primary key has no field block but does have an accessor block; the accessor count is attributes plus relationships |
| EntityGen.GenerateImports | generar_entities.py:209-234 | the import block is the import lines joined by newlines |
| EntityGen.AttributeImportsMembers | generar_entities.py:217-225 | a line is added by the attribute loop iff some attribute's type needs it |
| EntityGen.AttributeImportsKnown | generar_entities.py:217-225 | the attribute loop only adds the LocalDate, LocalDateTime or BigDecimal import |
| EntityGen.TypeImportCases | generar_entities.py:220-225 | each type import belongs to exactly one Java type |
| EntityGen.TypeImportPresent | generar_entities.py:217-225 | a type import is collected iff some attribute has that type |
| EntityGen.ImportSetContents | generar_entities.py:211-232 | the collected set always holds javax.persistence.*, List iff some relationship is OneToMany, each type import iff some attribute has that type |
| EntityGen.ImportOrderSorted | generated/entities/Invernadero.java:3-6 | BigDecimal < LocalDate < LocalDateTime < List < javax.persistence.* in string order |
| EntityGen.ImportLinesSorted | generar_entities.py:234 | the import lines are strictly sorted (no duplicates) and hold exactly the collected set |
| EntityGen.ImportLinesContents | generar_entities.py:209-234 | import lines are sorted and duplicate-free, always include javax.persistence.*, List iff OneToMany, each type import iff used, nothing else |
| EntityFile.GenerateEntity | generar_entities.py:240-263 | the class text is the template after the six replacements in order, with absent relationships read as none |
| EntityFile.MissingRelationshipsAsEmpty | generar_entities.py:245 | an entity without `relationships` generates the same class as one with an empty list, with no relationship code and no List import |
| EntityFile.PlaceholderNamesValid | generar_entities.py:256-261 | the six placeholder names consist of upper-case letters and underscores only |
| EntityFile.EntityTextReplacesInOrder | generar_entities.py:256-261 | the generator's replacement chain is the replacement of the six placeholders in that order |
| EntityFile.EnvDollarFree | generar_entities.py:250-253 | for an entity whose names and types hold no `$`, none of the generated fragments does |
| EntityFile.EntityFillsTemplate | generar_entities.py:256-261 | for a template whose literal text has no `$` and whose slots are the six placeholders, and an entity whose name, table name, attribute names and types, relationship targets, join columns and mappedBy hold no `$`, the class equals the template with each placeholder replaced by its fragment |

## Left out

- Database I/O: the psycopg2 connection, `cursor.execute`, commit, rollback and the error path of `crear_tablas`. `SchemaDdl.CreateTables` returns the statement texts in the order they would be executed; it does not model a failure part way through.
- `cargar_configuracion`, `crear_base_datos`, `verificar_tablas` and every `print`: these are file, console and database I/O.
- `cargar_modelo`, `cargar_plantilla`, `guardar_entity` and `main` of generar_entities.py: these do file reads, writes and directory creation. The class template file is not part of this model. `EntityFile` takes the template as a parameter.
- agregar_datos_adicionales.py and limpiar_tablas.py: random test data and an interactive truncation menu, with no deterministic contract.
- JSON decoding. Flags are modelled as booleans and lengths as integers. A JSON `null`, or a non-boolean truthy value, where the source tests truthiness is not modelled. A `null` relationship list is read like an absent one.
- SchemaDdl.DefaultLiteral: float defaults are left out, because Python's float formatting is not modelled. A JSON `null` default is modelled and renders as `None`, as the f-string does.
- SchemaDdl.Sql: the statement texts drop the layout of the triple-quoted SQL. The leading and trailing newlines and indentation are removed, as is the whitespace just inside the parentheses of CREATE TABLE; the remaining tokens are separated by single spaces. So the model writes `CREATE TABLE IF NOT EXISTS t (cols);` where the source sends the same tokens on indented lines. PostgreSQL ignores that whitespace. The Java texts keep the source's exact whitespace.
- Strings.Lower: `str.lower`/`str.upper` are modelled on ASCII letters only. Other characters are kept unchanged.
- SchemaDdl.CreateTables: requires every attribute flagged `fk` to carry `referencia`. The source raises KeyError without it.
- EntityGen.GenerateRelationships: requires `joinColumn` (ManyToOne), `mappedBy` (OneToMany) and a non-empty `targetEntity`. The source raises KeyError or IndexError without them.
- EntityGen.GenerateAccessors: requires non-empty attribute names and relationship targets. The source takes their first character.
- EntityFile.EntityFillsTemplate: covers templates whose placeholders are each followed by a character that cannot continue a placeholder name, and whose literal text holds no `$`, and entities whose name, table name, attribute names and Java types, relationship targets, join columns and mappedBy hold no `$`. Other templates are still modelled by `EntityFile.GenerateEntity`, but the slot-filling theorem does not cover them.
