/**
 * A result builder for an explicitly converted scalar column of a native
 * query: it binds one result column (by alias, or by position when there is
 * no alias) to a domain type through an attribute converter.
 *
 * Everything the builder calls into is kept abstract: the Java type registry
 * and bean registry of the session factory, the row metadata's alias and type
 * lookups, the jdbc-to-values-array position helper, the per-pass expression
 * cache, the converter's own equals/hashCode and String.hashCode.
 */
module DynamicResultBuilder {
  import opened Wrappers
  import opened JavaInt

  datatype JavaClass = JavaClass(name: string)

  /** A Java type descriptor, as handed out by the Java type registry. */
  datatype JavaType = JavaType(javaTypeClass: JavaClass)

  /** An AttributeConverter object supplied by the application. */
  datatype ConverterInstance = ConverterInstance(runtimeClass: JavaClass, identity: nat)

  datatype ManagedBean =
    | ProvidedInstanceManagedBean(instance: ConverterInstance)
    | RegisteredBean(beanClass: JavaClass, handle: nat)

  /** The two-sided converter wrapping an attribute converter bean. */
  datatype BasicValueConverter = JpaAttributeConverter(
    bean: ManagedBean,
    converterJavaType: JavaType,
    domainJavaType: JavaType,
    relationalJavaType: JavaType)

  /** The two registries of the session factory the constructors consult. */
  datatype SessionFactory = SessionFactory(
    getDescriptor: JavaClass -> JavaType,
    getBean: JavaClass -> ManagedBean)

  datatype BasicType = BasicType(javaType: JavaType, jdbcTypeCode: int)

  /** A selection bound to a values-array position; it is also the expression the cache holds. */
  datatype SqlSelection = ResultSetMappingSqlSelection(valuesArrayPosition: Int32, basicType: BasicType)

  /** What the row metadata of the result set answers. */
  datatype JdbcValuesMetadata = JdbcValuesMetadata(
    resolveColumnPosition: string -> Int32,
    resolveType: (Int32, JavaType) -> BasicType)

  /**
   * The expression resolver of the current pass: its cache of expressions by
   * key, and its selection step, both abstract.
   */
  datatype SqlExpressionResolver = SqlExpressionResolver(
    expressions: map<Option<string>, SqlSelection>,
    resolveSqlSelection: (SqlSelection, JavaType) -> SqlSelection)

  datatype BasicResult = BasicResult(
    valuesArrayPosition: Int32,
    resultVariable: Option<string>,
    javaType: JavaType,
    converter: BasicValueConverter)

  /** The built result and the resolver as the build leaves it. */
  datatype Built = Built(result: BasicResult, resolver: SqlExpressionResolver)

  /** equals/hashCode of the collaborators, which this model does not see. */
  datatype ObjectContracts = ObjectContracts(
    stringHash: string -> Int32,
    converterEquals: (BasicValueConverter, BasicValueConverter) -> bool,
    converterHash: BasicValueConverter -> Int32)

  /** The converter's hashCode agrees with its equals, as Java's contract asks. */
  ghost predicate HashConsistent(c: ObjectContracts)
  {
    forall a, b :: c.converterEquals(a, b) ==> c.converterHash(a) == c.converterHash(b)
  }

  ghost predicate ConverterEqualsSymmetric(c: ObjectContracts)
  {
    forall a, b :: c.converterEquals(a, b) ==> c.converterEquals(b, a)
  }

  ghost predicate ConverterEqualsTransitive(c: ObjectContracts)
  {
    forall a, b, d :: c.converterEquals(a, b) && c.converterEquals(b, d) ==> c.converterEquals(a, d)
  }

  /** The converter the instance-taking constructor builds. */
  function ConverterForInstance(domainJavaType: JavaClass, jdbcJavaType: JavaClass, converter: ConverterInstance,
                                sessionFactory: SessionFactory): (r: BasicValueConverter)
    ensures r.bean == ProvidedInstanceManagedBean(converter)
    ensures r.converterJavaType == sessionFactory.getDescriptor(converter.runtimeClass)
    ensures r.domainJavaType == sessionFactory.getDescriptor(domainJavaType)
    ensures r.relationalJavaType == sessionFactory.getDescriptor(jdbcJavaType)
  {
    JpaAttributeConverter(
      ProvidedInstanceManagedBean(converter),
      sessionFactory.getDescriptor(converter.runtimeClass),
      sessionFactory.getDescriptor(domainJavaType),
      sessionFactory.getDescriptor(jdbcJavaType))
  }

  /** The converter the class-taking constructor builds, with the bean the registry resolves. */
  function ConverterForClass(domainJavaType: JavaClass, jdbcJavaType: JavaClass, converterJavaType: JavaClass,
                             sessionFactory: SessionFactory): (r: BasicValueConverter)
    ensures r.bean == sessionFactory.getBean(converterJavaType)
    ensures r.converterJavaType == sessionFactory.getDescriptor(converterJavaType)
    ensures r.domainJavaType == sessionFactory.getDescriptor(domainJavaType)
    ensures r.relationalJavaType == sessionFactory.getDescriptor(jdbcJavaType)
  {
    JpaAttributeConverter(
      sessionFactory.getBean(converterJavaType),
      sessionFactory.getDescriptor(converterJavaType),
      sessionFactory.getDescriptor(domainJavaType),
      sessionFactory.getDescriptor(jdbcJavaType))
  }

  /**
   * The two construction paths give converters of the same domain and
   * relational types; they differ only in how the converter bean is obtained.
   */
  lemma ConstructionPathsAgree(domainJavaType: JavaClass, jdbcJavaType: JavaClass, converter: ConverterInstance,
                               sessionFactory: SessionFactory)
    ensures var byInstance := ConverterForInstance(domainJavaType, jdbcJavaType, converter, sessionFactory);
            var byClass := ConverterForClass(domainJavaType, jdbcJavaType, converter.runtimeClass, sessionFactory);
            && byInstance.domainJavaType == byClass.domainJavaType
            && byInstance.relationalJavaType == byClass.relationalJavaType
            && byInstance.converterJavaType == byClass.converterJavaType
  {
  }

  /** The builder. Its two fields are final, and equals starts with a reference comparison. */
  class DynamicResultBuilderBasicConverted {
    const columnAlias: Option<string>
    const basicValueConverter: BasicValueConverter

    constructor FromInstance(columnAlias: Option<string>, domainJavaType: JavaClass, jdbcJavaType: JavaClass,
                             converter: ConverterInstance, sessionFactory: SessionFactory)
      ensures this.columnAlias == columnAlias
      ensures basicValueConverter == ConverterForInstance(domainJavaType, jdbcJavaType, converter, sessionFactory)
    {
      this.columnAlias := columnAlias;
      basicValueConverter := ConverterForInstance(domainJavaType, jdbcJavaType, converter, sessionFactory);
    }

    constructor FromClass(columnAlias: Option<string>, domainJavaType: JavaClass, jdbcJavaType: JavaClass,
                          converterJavaType: JavaClass, sessionFactory: SessionFactory)
      ensures this.columnAlias == columnAlias
      ensures basicValueConverter == ConverterForClass(domainJavaType, jdbcJavaType, converterJavaType, sessionFactory)
    {
      this.columnAlias := columnAlias;
      basicValueConverter := ConverterForClass(domainJavaType, jdbcJavaType, converterJavaType, sessionFactory);
    }

    /** The Java type of the result: the class of the converter's domain type. */
    function GetJavaType(): (r: JavaClass)
      ensures r == basicValueConverter.domainJavaType.javaTypeClass
    {
      basicValueConverter.domainJavaType.javaTypeClass
    }

    /** The builder is its own cache key. */
    function CacheKeyInstance(): (r: DynamicResultBuilderBasicConverted)
      ensures r == this
    {
      this
    }

    /**
     * The JDBC (1-based) position of the column: the metadata's position of
     * the alias when there is one, otherwise resultPosition + 1 in Java int
     * arithmetic.
     */
    function JdbcPosition(metadata: JdbcValuesMetadata, resultPosition: Int32): (p: Int32)
      ensures columnAlias.Some? ==> p == metadata.resolveColumnPosition(columnAlias.value)
      ensures columnAlias.None? ==> p == Wrap(resultPosition + 1)
    {
      var currentJdbcPosition := Add(resultPosition, 1);
      if columnAlias.Some? then metadata.resolveColumnPosition(columnAlias.value) else currentJdbcPosition
    }

    /** The selection the expression-creating callback makes for the column. */
    function CreateSelection(metadata: JdbcValuesMetadata, resultPosition: Int32,
                             jdbcPositionToValuesArrayPosition: Int32 -> Int32): (s: SqlSelection)
      ensures s.valuesArrayPosition == jdbcPositionToValuesArrayPosition(JdbcPosition(metadata, resultPosition))
      ensures s.basicType == metadata.resolveType(JdbcPosition(metadata, resultPosition),
                                                  basicValueConverter.relationalJavaType)
    {
      var jdbcPosition := JdbcPosition(metadata, resultPosition);
      var basicType := metadata.resolveType(jdbcPosition, basicValueConverter.relationalJavaType);
      ResultSetMappingSqlSelection(jdbcPositionToValuesArrayPosition(jdbcPosition), basicType)
    }

    /**
     * buildResult: the expression cached under the alias, or the one the
     * callback creates (and the cache then keeps); its selection, resolved with
     * the converter's relational type; and a result at that selection's
     * position carrying the alias, the converter's domain type and the
     * converter itself.
     */
    function BuildResult(metadata: JdbcValuesMetadata, resultPosition: Int32, resolver: SqlExpressionResolver,
                         jdbcPositionToValuesArrayPosition: Int32 -> Int32): (r: Built)
      ensures columnAlias in resolver.expressions ==> r.resolver == resolver
      ensures columnAlias !in resolver.expressions ==>
        r.resolver == resolver.(expressions := resolver.expressions[columnAlias :=
          CreateSelection(metadata, resultPosition, jdbcPositionToValuesArrayPosition)])
      ensures columnAlias in r.resolver.expressions
      ensures r.result.valuesArrayPosition
           == resolver.resolveSqlSelection(r.resolver.expressions[columnAlias],
                                           basicValueConverter.relationalJavaType).valuesArrayPosition
      ensures r.result.resultVariable == columnAlias
      ensures r.result.javaType == basicValueConverter.domainJavaType
      ensures r.result.converter == basicValueConverter
    {
      var expression :=
        if columnAlias in resolver.expressions then resolver.expressions[columnAlias]
        else CreateSelection(metadata, resultPosition, jdbcPositionToValuesArrayPosition);
      var resolver' := resolver.(expressions := resolver.expressions[columnAlias := expression]);
      var sqlSelection := resolver.resolveSqlSelection(expression, basicValueConverter.relationalJavaType);
      Built(
        BasicResult(sqlSelection.valuesArrayPosition, columnAlias, basicValueConverter.domainJavaType, basicValueConverter),
        if columnAlias in resolver.expressions then resolver else resolver')
    }

    /**
     * Java's equals, against any object: the builder itself; never null or an
     * object of another class; otherwise another builder with an equal
     * (null-safe) alias and an equal converter.
     */
    predicate Equals(o: object?, contracts: ObjectContracts)
      ensures this == o ==> Equals(o, contracts)
      ensures o == null ==> !Equals(o, contracts)
      ensures o != null && !(o is DynamicResultBuilderBasicConverted) ==> !Equals(o, contracts)
      ensures o is DynamicResultBuilderBasicConverted && this != o ==>
        (Equals(o, contracts)
         <==> columnAlias == (o as DynamicResultBuilderBasicConverted).columnAlias
              && contracts.converterEquals(basicValueConverter, (o as DynamicResultBuilderBasicConverted).basicValueConverter))
    {
      if this == o then true
      else if o == null || !(o is DynamicResultBuilderBasicConverted) then false
      else
        var that := o as DynamicResultBuilderBasicConverted;
        columnAlias == that.columnAlias && contracts.converterEquals(basicValueConverter, that.basicValueConverter)
    }

    /**
     * Java's hashCode: 31 times the alias's hash (0 without an alias) plus
     * the converter's hash, computed exactly and wrapped once to an int.
     */
    function HashCode(contracts: ObjectContracts): (h: Int32)
      ensures var aliasHash := if columnAlias.Some? then contracts.stringHash(columnAlias.value) else 0;
              h == Wrap(31 * aliasHash + contracts.converterHash(basicValueConverter))
    {
      var result := if columnAlias.Some? then contracts.stringHash(columnAlias.value) else 0;
      MulAddWrapsOnce(31, result, contracts.converterHash(basicValueConverter));
      Add(Mul(31, result), contracts.converterHash(basicValueConverter))
    }
  }

  // -----------------------------------------------------------------------
  // Column position

  /** An alias wins over the position: "status" at position 3 resolves to 3, whatever resultPosition is. */
  lemma AliasedPositionExample(b: DynamicResultBuilderBasicConverted, metadata: JdbcValuesMetadata, resultPosition: Int32)
    requires b.columnAlias == Some("status")
    requires metadata.resolveColumnPosition("status") == 3
    ensures b.JdbcPosition(metadata, resultPosition) == 3
  {
  }

  /** Without an alias, the position is the next one: resultPosition 2 resolves to 3. */
  lemma PositionalExample(b: DynamicResultBuilderBasicConverted, metadata: JdbcValuesMetadata)
    requires b.columnAlias == None
    ensures b.JdbcPosition(metadata, 2) == 3
  {
  }

  /** Below Integer.MAX_VALUE, resultPosition + 1 does not wrap. */
  lemma PositionalNoOverflow(b: DynamicResultBuilderBasicConverted, metadata: JdbcValuesMetadata, resultPosition: Int32)
    requires b.columnAlias == None
    requires resultPosition < 0x7fff_ffff
    ensures b.JdbcPosition(metadata, resultPosition) == resultPosition + 1
  {
    WrapCongruent(resultPosition + 1, resultPosition + 1);
  }

  // -----------------------------------------------------------------------
  // Building the result

  /**
   * A second build with the resolver the first one left finds the cached
   * expression: the same result, and the resolver unchanged.
   */
  lemma BuildResultReusesCachedExpression(b: DynamicResultBuilderBasicConverted, metadata: JdbcValuesMetadata,
                                          resultPosition: Int32, resolver: SqlExpressionResolver,
                                          toValuesArrayPosition: Int32 -> Int32, otherMetadata: JdbcValuesMetadata,
                                          otherPosition: Int32)
    ensures var first := b.BuildResult(metadata, resultPosition, resolver, toValuesArrayPosition);
            var second := b.BuildResult(otherMetadata, otherPosition, first.resolver, toValuesArrayPosition);
            second.result == first.result && second.resolver == first.resolver
  {
  }

  /**
   * On a fresh key, the built result's position is what the resolver's
   * selection step makes of the selection at
   * jdbcPositionToValuesArrayPosition(jdbc position).
   */
  lemma BuildResultFreshKey(b: DynamicResultBuilderBasicConverted, metadata: JdbcValuesMetadata,
                            resultPosition: Int32, resolver: SqlExpressionResolver,
                            toValuesArrayPosition: Int32 -> Int32)
    requires b.columnAlias !in resolver.expressions
    ensures var created := b.CreateSelection(metadata, resultPosition, toValuesArrayPosition);
            && created.valuesArrayPosition == toValuesArrayPosition(b.JdbcPosition(metadata, resultPosition))
            && b.BuildResult(metadata, resultPosition, resolver, toValuesArrayPosition).result.valuesArrayPosition
               == resolver.resolveSqlSelection(created, b.basicValueConverter.relationalJavaType).valuesArrayPosition
  {
  }

  // -----------------------------------------------------------------------
  // equals and hashCode

  lemma EqualsReflexive(b: DynamicResultBuilderBasicConverted, contracts: ObjectContracts)
    ensures b.Equals(b, contracts)
  {
  }

  lemma EqualsNull(b: DynamicResultBuilderBasicConverted, contracts: ObjectContracts)
    ensures !b.Equals(null, contracts)
  {
  }

  /** An object of another class is never equal to a builder. */
  lemma EqualsOtherClass(b: DynamicResultBuilderBasicConverted, o: object, contracts: ObjectContracts)
    requires !(o is DynamicResultBuilderBasicConverted)
    ensures !b.Equals(o, contracts)
  {
  }

  /** Two distinct builders are equal iff their aliases are (null-safe) equal and their converters are equal. */
  lemma EqualsIff(b: DynamicResultBuilderBasicConverted, that: DynamicResultBuilderBasicConverted, contracts: ObjectContracts)
    requires b != that
    ensures b.Equals(that, contracts)
        <==> b.columnAlias == that.columnAlias
             && contracts.converterEquals(b.basicValueConverter, that.basicValueConverter)
  {
  }

  lemma EqualsSymmetric(a: DynamicResultBuilderBasicConverted, b: DynamicResultBuilderBasicConverted, contracts: ObjectContracts)
    requires ConverterEqualsSymmetric(contracts)
    requires a.Equals(b, contracts)
    ensures b.Equals(a, contracts)
  {
  }

  lemma EqualsTransitive(a: DynamicResultBuilderBasicConverted, b: DynamicResultBuilderBasicConverted,
                         c: DynamicResultBuilderBasicConverted, contracts: ObjectContracts)
    requires ConverterEqualsTransitive(contracts)
    requires a.Equals(b, contracts) && b.Equals(c, contracts)
    ensures a.Equals(c, contracts)
  {
  }

  /** Equal builders have equal hash codes, so the builder is a sound cache key. */
  lemma EqualBuildersHashAlike(a: DynamicResultBuilderBasicConverted, b: DynamicResultBuilderBasicConverted,
                               contracts: ObjectContracts)
    requires HashConsistent(contracts)
    requires a.Equals(b, contracts)
    ensures a.HashCode(contracts) == b.HashCode(contracts)
  {
  }

  /**
   * Builders made with the same alias and equal converters are equal and hash
   * alike, whichever constructor made them.
   */
  lemma SameSpecificationSameKey(a: DynamicResultBuilderBasicConverted, b: DynamicResultBuilderBasicConverted,
                                 contracts: ObjectContracts)
    requires HashConsistent(contracts)
    requires a.columnAlias == b.columnAlias
    requires contracts.converterEquals(a.basicValueConverter, b.basicValueConverter)
    ensures a.Equals(b, contracts) && a.HashCode(contracts) == b.HashCode(contracts)
  {
  }

  /** The cache key is equal to the builder and hashes alike. */
  lemma CacheKeyIsEquivalent(b: DynamicResultBuilderBasicConverted, contracts: ObjectContracts)
    ensures b.CacheKeyInstance().Equals(b, contracts) && b.Equals(b.CacheKeyInstance(), contracts)
    ensures b.CacheKeyInstance().HashCode(contracts) == b.HashCode(contracts)
  {
  }
}
