# Unique-key DDL, converted scalar results and the entity discriminator

This project models three pieces of Hibernate ORM's core:

- **The default unique delegate** (`unique_delegate.dfy`, module `UniqueDelegate`) writes the DDL for unique keys.
  - The two inline fragments are always empty.
  - It builds the `alter table ... add constraint <name> unique (<columns>)` command.
  - It builds the `unique (c1 [order], c2 [order], ...)` clause with a loop over the key's columns. The model keeps that loop as a method and proves it equal to a specification function. Lemmas then place every column's text, every `, ` separator and the closing parenthesis.
  - It builds the `alter table ... drop constraint [if exists] <name> [if exists]` command, which is also a method.
  - The dialect's quoting, its `alter table` prefix, a column's quoted name and the context's table-name formatting are uninterpreted functions.
- **The converted scalar result builder** (`dynamic_result_builder.dfy`, module `DynamicResultBuilder`) binds one column of a native query to a domain type through an attribute converter.
  - It is a class whose two fields are final, because `equals` starts with a reference comparison and accepts any object.
  - The model covers both constructors, the choice of the JDBC position (by alias, or `resultPosition + 1` in Java `int` arithmetic), and building the result through the per-pass expression cache.
  - It also covers `equals` and `hashCode`. `hashCode` uses explicit 32-bit wrap-around (module `JavaInt`, `java_int.dfy`).
- **The abstract discriminator mapping** (`discriminator_mapping.dfy`, module `EntityDiscriminator`) covers the discriminator column of a single-table hierarchy.
  - The model covers its role, its types, domain-result and fetch creation, SQL selection, and the value and type iterations.
  - SQL selections are always resolved with the underlying basic type, while results and callbacks carry the discriminator type.
  - Callbacks are modelled as the list of calls the operation makes, together with what it returns.

`wrappers.dfy` holds the `Option` type that stands for Java references that may be null.

## Model

| member | source | states |
|---|---|---|
| UniqueDelegate.DefaultUniqueDelegate | hibernate-core/src/main/java/org/hibernate/dialect/unique/DefaultUniqueDelegate.java:30-32 | the delegate serves the given dialect and drops with the keyword " drop constraint " |
| UniqueDelegate.GetColumnDefinitionUniquenessFragment | hibernate-core/src/main/java/org/hibernate/dialect/unique/DefaultUniqueDelegate.java:36-40 | uniqueness is never declared inline in a column definition: the fragment is empty |
| UniqueDelegate.GetTableCreationUniqueConstraintsFragment | hibernate-core/src/main/java/org/hibernate/dialect/unique/DefaultUniqueDelegate.java:42-46 | no unique constraint is added to the create-table statement: the fragment is empty |
| UniqueDelegate.OrderSuffix | hibernate-core/src/main/java/org/hibernate/dialect/unique/DefaultUniqueDelegate.java:70-72 | a column gets " " followed by its order exactly when the order map has an entry for it, and nothing otherwise |
| UniqueDelegate.ColumnFragments | hibernate-core/src/main/java/org/hibernate/dialect/unique/DefaultUniqueDelegate.java:62-73 | there is one fragment per key column, in the key's order: the column's quoted name followed by its order suffix |
| UniqueDelegate.UniqueConstraintSql | hibernate-core/src/main/java/org/hibernate/dialect/unique/DefaultUniqueDelegate.java:58-75 | the loop with its first-column flag produces exactly the specified clause: "unique (", the fragments joined by ", ", then ")" |
| UniqueDelegate.UniqueConstraintShape | hibernate-core/src/main/java/org/hibernate/dialect/unique/DefaultUniqueDelegate.java:58-75 | the clause starts with "unique (" and ends with ")"; a key with no columns gives "unique ()" because nothing rejects it |
| UniqueDelegate.ColumnListSnoc | hibernate-core/src/main/java/org/hibernate/dialect/unique/DefaultUniqueDelegate.java:62-73 | adding one more fragment to the join appends ", " and the fragment, or only the fragment when it is the first one |
| UniqueDelegate.FragmentAt | hibernate-core/src/main/java/org/hibernate/dialect/unique/DefaultUniqueDelegate.java:62-73 | the k-th fragment appears verbatim at its offset in the joined list |
| UniqueDelegate.SeparatorAfter | hibernate-core/src/main/java/org/hibernate/dialect/unique/DefaultUniqueDelegate.java:64-68 | between the k-th fragment and the next one stands exactly ", " |
| UniqueDelegate.LastFragmentEnds | hibernate-core/src/main/java/org/hibernate/dialect/unique/DefaultUniqueDelegate.java:62-73 | nothing follows the last fragment in the list |
| UniqueDelegate.ColumnListLayout | hibernate-core/src/main/java/org/hibernate/dialect/unique/DefaultUniqueDelegate.java:62-73 | the list is fragment, ", ", fragment, ...: each fragment sits at its offset, followed by ", " or by the end of the list |
| UniqueDelegate.ColumnListLength | hibernate-core/src/main/java/org/hibernate/dialect/unique/DefaultUniqueDelegate.java:62-73 | the list is as long as its fragments plus two characters per separator, with no stray separators |
| UniqueDelegate.ColumnRendering | hibernate-core/src/main/java/org/hibernate/dialect/unique/DefaultUniqueDelegate.java:58-75 | in the clause, each column's quoted name and order suffix appear at its offset, followed by ", " or, for the last column, by the closing ")" |
| UniqueDelegate.ColumnListStep | hibernate-core/src/main/java/org/hibernate/dialect/unique/DefaultUniqueDelegate.java:63-72 | one loop step extends the joined prefix by one fragment, with a separator except on the first step |
| UniqueDelegate.GetAlterTableToAddUniqueKeyCommand | hibernate-core/src/main/java/org/hibernate/dialect/unique/DefaultUniqueDelegate.java:48-56 | the command is the dialect's alter-table prefix for the formatted table name, then " add constraint ", the quoted key name and " ", followed by exactly the unique clause |
| UniqueDelegate.AddCommandExample | hibernate-core/src/main/java/org/hibernate/dialect/unique/DefaultUniqueDelegate.java:48-56 | a key "uk_email" on column email of table users gives "alter table users add constraint uk_email unique (email)" |
| UniqueDelegate.GetAlterTableToDropUniqueKeyCommand | hibernate-core/src/main/java/org/hibernate/dialect/unique/DefaultUniqueDelegate.java:77-92 | the built command equals the specified text: the prefix, the drop keyword, optionally "if exists ", the quoted name, optionally " if exists" |
| UniqueDelegate.DropIfExistsBefore | hibernate-core/src/main/java/org/hibernate/dialect/unique/DefaultUniqueDelegate.java:84-86 | the if-exists-before capability inserts exactly "if exists " after the drop keyword, independent of the other capability |
| UniqueDelegate.DropIfExistsAfter | hibernate-core/src/main/java/org/hibernate/dialect/unique/DefaultUniqueDelegate.java:88-90 | the if-exists-after capability appends exactly " if exists", independent of the other capability |
| UniqueDelegate.DropWithoutIfExists | hibernate-core/src/main/java/org/hibernate/dialect/unique/DefaultUniqueDelegate.java:77-92 | with neither capability, the command is the prefix, the drop keyword and the quoted name only |
| JavaInt.Wrap | hibernate-core/src/main/java/org/hibernate/query/results/dynamic/DynamicResultBuilderBasicConverted.java:159-164 | the result is a 32-bit int congruent to its argument modulo 2^32 |
| JavaInt.WrapCongruent | hibernate-core/src/main/java/org/hibernate/query/results/dynamic/DynamicResultBuilderBasicConverted.java:159-164 | arguments congruent modulo 2^32 wrap to the same int, so a value already in range is unchanged |
| JavaInt.MulAddWrapsOnce | hibernate-core/src/main/java/org/hibernate/query/results/dynamic/DynamicResultBuilderBasicConverted.java:159-164 | wrapping after the multiplication and again after the addition equals wrapping the exact value once |
| DynamicResultBuilder.ConverterForInstance | hibernate-core/src/main/java/org/hibernate/query/results/dynamic/DynamicResultBuilderBasicConverted.java:41-59 | the converter wraps the given instance as a provided bean, with the registry's descriptors for the converter's runtime class, the domain type and the JDBC type |
| DynamicResultBuilder.ConverterForClass | hibernate-core/src/main/java/org/hibernate/query/results/dynamic/DynamicResultBuilderBasicConverted.java:61-80 | the converter wraps the bean the registry resolves for the converter class, with the registry's descriptors for the converter, domain and JDBC types |
| DynamicResultBuilder.ConstructionPathsAgree | hibernate-core/src/main/java/org/hibernate/query/results/dynamic/DynamicResultBuilderBasicConverted.java:41-80 | both constructors give converters of the same converter, domain and relational types; only the bean differs |
| DynamicResultBuilder.DynamicResultBuilderBasicConverted.FromInstance | hibernate-core/src/main/java/org/hibernate/query/results/dynamic/DynamicResultBuilderBasicConverted.java:41-59 | the builder keeps the alias and the converter built around the given converter instance |
| DynamicResultBuilder.DynamicResultBuilderBasicConverted.FromClass | hibernate-core/src/main/java/org/hibernate/query/results/dynamic/DynamicResultBuilderBasicConverted.java:61-80 | the builder keeps the alias and the converter built around the bean the registry resolves for the converter class |
| DynamicResultBuilder.DynamicResultBuilderBasicConverted.GetJavaType | hibernate-core/src/main/java/org/hibernate/query/results/dynamic/DynamicResultBuilderBasicConverted.java:82-85 | the result's Java type is the class of the converter's domain type |
| DynamicResultBuilder.DynamicResultBuilderBasicConverted.CacheKeyInstance | hibernate-core/src/main/java/org/hibernate/query/results/dynamic/DynamicResultBuilderBasicConverted.java:87-90 | the builder is its own cache key |
| DynamicResultBuilder.DynamicResultBuilderBasicConverted.JdbcPosition | hibernate-core/src/main/java/org/hibernate/query/results/dynamic/DynamicResultBuilderBasicConverted.java:108-116 | with an alias, the position is the one the metadata gives for the alias; without one, it is resultPosition + 1 in Java int arithmetic |
| DynamicResultBuilder.AliasedPositionExample | hibernate-core/src/main/java/org/hibernate/query/results/dynamic/DynamicResultBuilderBasicConverted.java:110-112 | an aliased column is found by its alias, whatever the result position |
| DynamicResultBuilder.PositionalExample | hibernate-core/src/main/java/org/hibernate/query/results/dynamic/DynamicResultBuilderBasicConverted.java:113-115 | an unaliased column at result position 2 is JDBC column 3 |
| DynamicResultBuilder.PositionalNoOverflow | hibernate-core/src/main/java/org/hibernate/query/results/dynamic/DynamicResultBuilderBasicConverted.java:108-116 | below Integer.MAX_VALUE, resultPosition + 1 does not wrap |
| DynamicResultBuilder.DynamicResultBuilderBasicConverted.CreateSelection | hibernate-core/src/main/java/org/hibernate/query/results/dynamic/DynamicResultBuilderBasicConverted.java:107-127 | the created selection sits at the values-array position of the JDBC position, typed by the metadata's type for that position and the converter's relational type |
| DynamicResultBuilder.DynamicResultBuilderBasicConverted.BuildResult | hibernate-core/src/main/java/org/hibernate/query/results/dynamic/DynamicResultBuilderBasicConverted.java:92-140 | a cached expression under the alias leaves the cache unchanged; otherwise the created selection is cached under the alias. The result sits at the position of the selection resolved with the relational type, and carries the alias, the domain type and the converter |
| DynamicResultBuilder.BuildResultReusesCachedExpression | hibernate-core/src/main/java/org/hibernate/query/results/dynamic/DynamicResultBuilderBasicConverted.java:103-140 | a second build with the resolver the first one left gives the same result and leaves the resolver unchanged |
| DynamicResultBuilder.BuildResultFreshKey | hibernate-core/src/main/java/org/hibernate/query/results/dynamic/DynamicResultBuilderBasicConverted.java:103-133 | on an uncached key, the result's position is what the resolver makes of the newly created selection |
| DynamicResultBuilder.DynamicResultBuilderBasicConverted.Equals | hibernate-core/src/main/java/org/hibernate/query/results/dynamic/DynamicResultBuilderBasicConverted.java:142-157 | a builder equals itself; null and objects of other classes are never equal; another builder is equal exactly when its alias is equal (null-safe) and its converter is equal |
| DynamicResultBuilder.EqualsReflexive | hibernate-core/src/main/java/org/hibernate/query/results/dynamic/DynamicResultBuilderBasicConverted.java:142-146 | a builder equals itself |
| DynamicResultBuilder.EqualsNull | hibernate-core/src/main/java/org/hibernate/query/results/dynamic/DynamicResultBuilderBasicConverted.java:147-149 | no builder equals null |
| DynamicResultBuilder.EqualsOtherClass | hibernate-core/src/main/java/org/hibernate/query/results/dynamic/DynamicResultBuilderBasicConverted.java:147-149 | no builder equals an object of another class |
| DynamicResultBuilder.EqualsIff | hibernate-core/src/main/java/org/hibernate/query/results/dynamic/DynamicResultBuilderBasicConverted.java:142-157 | two distinct builders are equal exactly when their aliases are equal (null-safe) and their converters are equal |
| DynamicResultBuilder.EqualsSymmetric | hibernate-core/src/main/java/org/hibernate/query/results/dynamic/DynamicResultBuilderBasicConverted.java:142-157 | equals is symmetric when the converters' equals is |
| DynamicResultBuilder.EqualsTransitive | hibernate-core/src/main/java/org/hibernate/query/results/dynamic/DynamicResultBuilderBasicConverted.java:142-157 | equals is transitive when the converters' equals is |
| DynamicResultBuilder.DynamicResultBuilderBasicConverted.HashCode | hibernate-core/src/main/java/org/hibernate/query/results/dynamic/DynamicResultBuilderBasicConverted.java:159-164 | hashCode is 31 times the alias's hash (0 without an alias) plus the converter's hash, computed exactly and wrapped once to an int |
| DynamicResultBuilder.EqualBuildersHashAlike | hibernate-core/src/main/java/org/hibernate/query/results/dynamic/DynamicResultBuilderBasicConverted.java:142-164 | equal builders have equal hash codes when the converters' hashCode agrees with their equals |
| DynamicResultBuilder.SameSpecificationSameKey | hibernate-core/src/main/java/org/hibernate/query/results/dynamic/DynamicResultBuilderBasicConverted.java:142-164 | builders with the same alias and equal converters are equal and hash alike, whichever constructor made them |
| DynamicResultBuilder.CacheKeyIsEquivalent | hibernate-core/src/main/java/org/hibernate/query/results/dynamic/DynamicResultBuilderBasicConverted.java:142-164 | the cache key is equal to the builder, in both directions, and hashes alike |
| EntityDiscriminator.NewDiscriminatorMapping | hibernate-core/src/main/java/org/hibernate/metamodel/mapping/internal/AbstractDiscriminatorMapping.java:50-59 | the role is the entity's role with "{discriminator}" appended; the entity, the discriminator type and the session factory are kept |
| EntityDiscriminator.RoleIsChildOfEntityRole | hibernate-core/src/main/java/org/hibernate/metamodel/mapping/internal/AbstractDiscriminatorMapping.java:57-80 | the mapping's navigable role is a direct child of its entity's role, and its containing entity is that entity |
| EntityDiscriminator.DiscriminatorMapping.GetNavigableRole | hibernate-core/src/main/java/org/hibernate/metamodel/mapping/internal/AbstractDiscriminatorMapping.java:77-80 | the navigable role is the one fixed at construction (the entity's role plus "{discriminator}", see RoleIsChildOfEntityRole) |
| EntityDiscriminator.DiscriminatorMapping.FindContainingEntityMapping | hibernate-core/src/main/java/org/hibernate/metamodel/mapping/internal/AbstractDiscriminatorMapping.java:92-95 | the containing entity is the entity descriptor given at construction |
| EntityDiscriminator.DiscriminatorMapping.GetJdbcMapping | hibernate-core/src/main/java/org/hibernate/metamodel/mapping/internal/AbstractDiscriminatorMapping.java:82-85 | the mapping's JDBC mapping is the discriminator type itself |
| EntityDiscriminator.DiscriminatorMapping.GetUnderlyingJdbcMappingType | hibernate-core/src/main/java/org/hibernate/metamodel/mapping/internal/AbstractDiscriminatorMapping.java:65-67 | the underlying type is the basic type beneath the discriminator type |
| EntityDiscriminator.DiscriminatorMapping.GetMappedType | hibernate-core/src/main/java/org/hibernate/metamodel/mapping/internal/AbstractDiscriminatorMapping.java:97-100 | the mapped type is the JDBC mapping |
| EntityDiscriminator.DiscriminatorMapping.GetJavaType | hibernate-core/src/main/java/org/hibernate/metamodel/mapping/internal/AbstractDiscriminatorMapping.java:102-105 | the Java type is the discriminator type's Java type |
| EntityDiscriminator.DiscriminatorMapping.GetConcreteEntityNameForDiscriminatorValue | hibernate-core/src/main/java/org/hibernate/metamodel/mapping/internal/AbstractDiscriminatorMapping.java:87-90 | the concrete entity name is what the entity persister's subclass lookup gives for the value |
| EntityDiscriminator.DiscriminatorMapping.SelectionRequestFor | hibernate-core/src/main/java/org/hibernate/metamodel/mapping/internal/AbstractDiscriminatorMapping.java:129-142 | a selection is requested for the given path, table group and fetch parent, with the given JDBC mapping and its JDBC Java type |
| EntityDiscriminator.DiscriminatorMapping.CreateDomainResult | hibernate-core/src/main/java/org/hibernate/metamodel/mapping/internal/AbstractDiscriminatorMapping.java:107-127 | the selection is resolved with the underlying type; the result sits at that selection's position, typed by the discriminator type, with the result variable and path |
| EntityDiscriminator.DiscriminatorMapping.GenerateFetch | hibernate-core/src/main/java/org/hibernate/metamodel/mapping/internal/AbstractDiscriminatorMapping.java:144-175 | the table group registered for the fetch parent's path must exist; the selection is resolved with the underlying type; the fetch sits at its position and carries the parent, the path, this mapping and the timing |
| EntityDiscriminator.DiscriminatorMapping.ApplySqlSelections | hibernate-core/src/main/java/org/hibernate/metamodel/mapping/internal/AbstractDiscriminatorMapping.java:177-183 | the selection is resolved with the underlying type |
| EntityDiscriminator.DiscriminatorMapping.ApplySqlSelectionsTo | hibernate-core/src/main/java/org/hibernate/metamodel/mapping/internal/AbstractDiscriminatorMapping.java:185-195 | the selection is resolved with the underlying type, and the consumer is called once, with that selection and the discriminator type |
| EntityDiscriminator.DiscriminatorMapping.ForEachDisassembledJdbcValue | hibernate-core/src/main/java/org/hibernate/metamodel/mapping/internal/AbstractDiscriminatorMapping.java:197-206 | the consumer is called once, at the given offset, with the value and the discriminator type; the count of columns is returned |
| EntityDiscriminator.DiscriminatorMapping.ForEachJdbcType | hibernate-core/src/main/java/org/hibernate/metamodel/mapping/internal/AbstractDiscriminatorMapping.java:208-212 | the action is called once, at the given offset, with the discriminator type; the count of columns is returned |
| EntityDiscriminator.DiscriminatorMapping.Disassemble | hibernate-core/src/main/java/org/hibernate/metamodel/mapping/internal/AbstractDiscriminatorMapping.java:219-222 | a discriminator value disassembles to itself |
| EntityDiscriminator.DiscriminatorMapping.BreakDownJdbcValues | hibernate-core/src/main/java/org/hibernate/metamodel/mapping/internal/AbstractDiscriminatorMapping.java:214-217 | the consumer is called once, with the value and this mapping |
| EntityDiscriminator.DiscriminatorMapping.ForEachSelectable | hibernate-core/src/main/java/org/hibernate/metamodel/mapping/internal/AbstractDiscriminatorMapping.java:224-228 | the consumer is called once, at the given offset, with this mapping; the count of columns is returned |
| EntityDiscriminator.SelectionsUseUnderlyingType | hibernate-core/src/main/java/org/hibernate/metamodel/mapping/internal/AbstractDiscriminatorMapping.java:107-195 | domain results and both selection-applying operations resolve with the underlying basic type, never with the type they hand back |
| EntityDiscriminator.FetchUsesUnderlyingType | hibernate-core/src/main/java/org/hibernate/metamodel/mapping/internal/AbstractDiscriminatorMapping.java:144-175 | a fetch resolves its selection with the underlying type, and its fetchable reports the discriminator type |
| EntityDiscriminator.FetchAndResultShareSelection | hibernate-core/src/main/java/org/hibernate/metamodel/mapping/internal/AbstractDiscriminatorMapping.java:107-175 | a fetch and a domain result for the same path and table group make the same request apart from the fetch parent, so they land at the same position when the resolver ignores the parent |
| EntityDiscriminator.IterationsReturnCountNotEnd | hibernate-core/src/main/java/org/hibernate/metamodel/mapping/internal/AbstractDiscriminatorMapping.java:197-228 | the iterations return the column count (1), not offset + 1; the two coincide only at offset 0 |
| EntityDiscriminator.BreakDownMatchesDisassembled | hibernate-core/src/main/java/org/hibernate/metamodel/mapping/internal/AbstractDiscriminatorMapping.java:197-222 | breaking down hands over the disassembled value, which is the original value |

## Left out

- Dialect internals are uninterpreted functions and flags on the `Dialect` record. These are identifier quoting, the `alter table` prefix, `Column.getQuotedName`, the two if-exists capabilities, and the context's catalog/schema formatting. The `Metadata` parameter is not used by the code and is omitted.
- Column identity in the order map is Dafny value equality on the column's name. `Column.equals` is not part of this model.
- Dialect-specific delegates that override the drop keyword are not modelled. The keyword is a field of the delegate, so other values can be passed.
- Registries are abstract functions of the session factory. These are the Java type registry, the managed bean registry and bean lifecycle. So are the row metadata's alias lookup and type resolution, the jdbc-to-values-array position helper, the expression cache's selection step, `String.hashCode`, and the converter's own `equals`/`hashCode`.
- `buildResult`'s `legacyFetchResolver` and the type configuration are not used in the modelled computation and are omitted.
- The lambda that creates the expression is inlined. The model does not capture when the cache calls it, beyond the fact that it is called only when the key is absent.
- `AbstractDiscriminatorMapping.getConcreteEntityNameForDiscriminatorValue`'s lookup and its failure for unknown values live in the entity persister, which is not part of this model. The model only states the delegation.
- `EntityDiscriminatorMapping.ROLE_NAME` ("{discriminator}") and `BasicValuedModelPart.getJdbcTypeCount` (1 for a single column) are declared outside the modelled files. Their values are taken as constants.
- The SQL AST machinery is abstract: expression resolution, selection resolution and its caching, the from-clause access, the column reference, and the domain result and fetch objects. The model records the request made (path, JDBC mapping, JDBC Java type, table group, fetch parent) and the returned selection's position.
- `GenerateFetch` requires the fetch parent's table group to exist. The source's `assert tableGroup != null` states the same.
- Concurrency, JDBC access and executing the generated DDL are outside the model.
- The forEach operations return `getJdbcTypeCount()` (1), not `offset + 1`; `IterationsReturnCountNotEnd` states this.
- An `alter table` prefix already ending in a space would give a double space before `add constraint`. `AddCommandExample` therefore uses a prefix without a trailing space.
- The expression cache is a map keyed by the column alias, with `None` as the key of an unaliased builder. This mirrors the `resolveSqlExpression(columnAlias, ...)` call; the resolver's own keying is not part of this model. One consequence follows from this assumed cache and not from the code shown: two different unaliased builders in one pass share one cache entry, so the second gets the position the first one created.
- `BuildResult` drops the session factory passed to `resolveType` (DynamicResultBuilderBasicConverted.java lines 120-122) and the `null` fetch parent passed to `resolveSqlSelection` (line 130); the model's `resolveType` and `resolveSqlSelection` take neither.
