/**
 * The discriminator mapping of an entity hierarchy stored in one table: the
 * single column whose value names the concrete subtype of a row.
 *
 * The discriminator type pairs the domain-facing mapping (values stand for
 * entity classes) with an underlying basic type (the raw String, Integer, ...
 * stored in the column). SQL selections are always resolved with the
 * underlying type; results and callbacks are typed with the discriminator type.
 *
 * Callbacks are modelled by returning the calls the operation makes, in order;
 * the SQL AST machinery (expression/selection resolution and its per-pass
 * cache, the from-clause's table groups) is abstract.
 */
module EntityDiscriminator {
  import opened Wrappers

  /** The role name appended to the entity's role, EntityDiscriminatorMapping.ROLE_NAME. */
  const RoleName: string := "{discriminator}"

  datatype NavigableRole = NavigableRole(names: seq<string>)

  datatype NavigablePath = NavigablePath(names: seq<string>)

  datatype JavaType = JavaType(name: string)

  datatype BasicType = BasicType(name: string, javaType: JavaType, jdbcJavaType: JavaType)

  /** The domain-facing discriminator type and the basic type underneath it. */
  datatype DiscriminatorType = DiscriminatorType(javaType: JavaType, jdbcJavaType: JavaType, underlyingType: BasicType)

  datatype JdbcMapping =
    | Basic(basicType: BasicType)
    | Discriminator(discriminatorType: DiscriminatorType)
  {
    function JdbcJavaType(): JavaType
    {
      match this
      case Basic(b) => b.jdbcJavaType
      case Discriminator(d) => d.jdbcJavaType
    }
  }

  /** A discriminator value as read from or written to the column. */
  datatype Value = NullValue | StringValue(s: string) | IntegerValue(i: int) | CharacterValue(c: char)

  /** The part of the entity persister the mapping uses. */
  datatype EntityPersister = EntityPersister(
    entityName: string,
    navigableRole: NavigableRole,
    getSubclassForDiscriminatorValue: Value -> string)

  datatype SessionFactory = SessionFactory(name: string)

  datatype MappingModelCreationProcess = MappingModelCreationProcess(sessionFactory: SessionFactory)

  datatype TableGroup = TableGroup(navigablePath: NavigablePath, alias: string)

  datatype FetchParent = FetchParent(navigablePath: NavigablePath)

  datatype FetchTiming = Immediate | Delayed

  datatype Clause = Select | Where | Set | Values | Other

  /** What is asked of the expression and selection resolvers to select the column. */
  datatype SelectionRequest = SelectionRequest(
    navigablePath: NavigablePath,
    jdbcMapping: JdbcMapping,
    jdbcJavaType: JavaType,
    tableGroup: TableGroup,
    fetchParent: Option<FetchParent>)

  datatype SqlSelection = SqlSelection(valuesArrayPosition: nat, selectionId: nat)

  /**
   * The SQL AST creation state of the current pass: the table groups
   * registered so far by navigable path, and the (memoizing) resolution of a
   * request to a selection.
   */
  datatype SqlAstCreationState = SqlAstCreationState(
    tableGroups: map<NavigablePath, TableGroup>,
    resolveSqlSelection: SelectionRequest -> SqlSelection)

  datatype BasicResult = BasicResult(
    valuesArrayPosition: nat,
    resultVariable: Option<string>,
    jdbcMapping: JdbcMapping,
    navigablePath: NavigablePath)

  /** A result together with the selection request made to produce it. */
  datatype DomainResultOutcome = DomainResultOutcome(request: SelectionRequest, result: BasicResult)

  // One record per callback shape.
  datatype JdbcValueCall = JdbcValueCall(offset: int, value: Value, jdbcMapping: JdbcMapping)
  datatype JdbcTypeCall = JdbcTypeCall(offset: int, jdbcMapping: JdbcMapping)
  datatype SelectableCall = SelectableCall(offset: int, selectable: DiscriminatorMapping)
  datatype ValueCall = ValueCall(value: Value, selectable: DiscriminatorMapping)
  datatype SelectionCall = SelectionCall(selection: SqlSelection, jdbcMapping: JdbcMapping)

  /** The calls an iteration made, and the int it returned. */
  datatype FanOut<C> = FanOut(calls: seq<C>, returned: int)

  datatype BasicFetch = BasicFetch(
    valuesArrayPosition: nat,
    fetchParent: FetchParent,
    fetchablePath: NavigablePath,
    fetchable: DiscriminatorMapping,
    fetchTiming: FetchTiming)

  datatype FetchOutcome = FetchOutcome(request: SelectionRequest, fetch: BasicFetch)

  datatype SelectionsApplied = SelectionsApplied(request: SelectionRequest, calls: seq<SelectionCall>)

  /** The mapping: its role, its entity, its discriminator type and its session factory, all final. */
  datatype DiscriminatorMapping = DiscriminatorMapping(
    role: NavigableRole,
    entityDescriptor: EntityPersister,
    discriminatorType: DiscriminatorType,
    sessionFactory: SessionFactory)
  {
    /** The role under which the discriminator is navigated, fixed at construction. */
    function GetNavigableRole(): (r: NavigableRole)
      ensures r == role
    {
      role
    }

    /** The mapping's own JDBC mapping is the discriminator type, not the type underneath. */
    function GetJdbcMapping(): (r: JdbcMapping)
      ensures r.Discriminator? && r.discriminatorType == discriminatorType
    {
      Discriminator(discriminatorType)
    }

    function GetUnderlyingJdbcMappingType(): (r: BasicType)
      ensures r == discriminatorType.underlyingType
    {
      discriminatorType.underlyingType
    }

    function GetMappedType(): (r: JdbcMapping)
      ensures r == GetJdbcMapping()
    {
      GetJdbcMapping()
    }

    function GetJavaType(): (r: JavaType)
      ensures r == discriminatorType.javaType
    {
      GetJdbcMapping().discriminatorType.javaType
    }

    /** The entity whose hierarchy the discriminator distinguishes. */
    function FindContainingEntityMapping(): (r: EntityPersister)
      ensures r == entityDescriptor
    {
      entityDescriptor
    }

    /** A basic-valued part spans one JDBC column (BasicValuedModelPart's default). */
    function GetJdbcTypeCount(): nat
    {
      1
    }

    /** The subtype name comes from the entity persister's lookup. */
    function GetConcreteEntityNameForDiscriminatorValue(value: Value): (r: string)
      ensures r == entityDescriptor.getSubclassForDiscriminatorValue(value)
    {
      entityDescriptor.getSubclassForDiscriminatorValue(value)
    }

    /** The private resolveSqlSelection: the request made with the given JDBC mapping. */
    function SelectionRequestFor(navigablePath: NavigablePath, jdbcMappingToUse: JdbcMapping, tableGroup: TableGroup,
                                 fetchParent: Option<FetchParent>): (r: SelectionRequest)
      ensures r.jdbcMapping == jdbcMappingToUse && r.jdbcJavaType == jdbcMappingToUse.JdbcJavaType()
      ensures r.navigablePath == navigablePath && r.tableGroup == tableGroup && r.fetchParent == fetchParent
    {
      SelectionRequest(navigablePath, jdbcMappingToUse, jdbcMappingToUse.JdbcJavaType(), tableGroup, fetchParent)
    }

    function CreateDomainResult(navigablePath: NavigablePath, tableGroup: TableGroup, resultVariable: Option<string>,
                                creationState: SqlAstCreationState): (r: DomainResultOutcome)
      ensures r.request == SelectionRequestFor(navigablePath, Basic(GetUnderlyingJdbcMappingType()), tableGroup, None)
      ensures r.result.valuesArrayPosition == creationState.resolveSqlSelection(r.request).valuesArrayPosition
      ensures r.result.resultVariable == resultVariable
      ensures r.result.jdbcMapping == GetJdbcMapping()
      ensures r.result.navigablePath == navigablePath
    {
      var request := SelectionRequestFor(navigablePath, Basic(GetUnderlyingJdbcMappingType()), tableGroup, None);
      var sqlSelection := creationState.resolveSqlSelection(request);
      DomainResultOutcome(request, BasicResult(sqlSelection.valuesArrayPosition, resultVariable, GetJdbcMapping(), navigablePath))
    }

    /**
     * A fetch of the discriminator: the table group registered for the fetch
     * parent's path must exist (the source asserts it).
     */
    function GenerateFetch(fetchParent: FetchParent, fetchablePath: NavigablePath, fetchTiming: FetchTiming,
                           selected: bool, resultVariable: Option<string>,
                           creationState: SqlAstCreationState): (r: FetchOutcome)
      requires fetchParent.navigablePath in creationState.tableGroups
      ensures r.request == SelectionRequestFor(fetchablePath, Basic(GetUnderlyingJdbcMappingType()),
                                               creationState.tableGroups[fetchParent.navigablePath], Some(fetchParent))
      ensures r.fetch.valuesArrayPosition == creationState.resolveSqlSelection(r.request).valuesArrayPosition
      ensures r.fetch.fetchParent == fetchParent && r.fetch.fetchablePath == fetchablePath
      ensures r.fetch.fetchable == this && r.fetch.fetchTiming == fetchTiming
    {
      var tableGroup := creationState.tableGroups[fetchParent.navigablePath];
      var request := SelectionRequestFor(fetchablePath, Basic(GetUnderlyingJdbcMappingType()), tableGroup, Some(fetchParent));
      var sqlSelection := creationState.resolveSqlSelection(request);
      FetchOutcome(request, BasicFetch(sqlSelection.valuesArrayPosition, fetchParent, fetchablePath, this, fetchTiming))
    }

    /** applySqlSelections without a consumer: only the resolution happens. */
    function ApplySqlSelections(navigablePath: NavigablePath, tableGroup: TableGroup,
                                creationState: SqlAstCreationState): (r: SelectionRequest)
      ensures r == SelectionRequestFor(navigablePath, Basic(GetUnderlyingJdbcMappingType()), tableGroup, None)
    {
      SelectionRequestFor(navigablePath, Basic(GetUnderlyingJdbcMappingType()), tableGroup, None)
    }

    /** applySqlSelections with a consumer: one call, with the selection and the discriminator type. */
    function ApplySqlSelectionsTo(navigablePath: NavigablePath, tableGroup: TableGroup,
                                  creationState: SqlAstCreationState): (r: SelectionsApplied)
      ensures r.request == SelectionRequestFor(navigablePath, Basic(GetUnderlyingJdbcMappingType()), tableGroup, None)
      ensures |r.calls| == 1
      ensures r.calls[0].selection == creationState.resolveSqlSelection(r.request)
      ensures r.calls[0].jdbcMapping == GetJdbcMapping()
    {
      var request := SelectionRequestFor(navigablePath, Basic(GetUnderlyingJdbcMappingType()), tableGroup, None);
      SelectionsApplied(request, [SelectionCall(creationState.resolveSqlSelection(request), GetJdbcMapping())])
    }

    function ForEachDisassembledJdbcValue(value: Value, clause: Clause, offset: int): (r: FanOut<JdbcValueCall>)
      ensures |r.calls| == 1
      ensures r.calls[0].offset == offset && r.calls[0].value == value && r.calls[0].jdbcMapping == GetJdbcMapping()
      ensures r.returned == GetJdbcTypeCount()
    {
      FanOut([JdbcValueCall(offset, value, GetJdbcMapping())], GetJdbcTypeCount())
    }

    function ForEachJdbcType(offset: int): (r: FanOut<JdbcTypeCall>)
      ensures |r.calls| == 1
      ensures r.calls[0].offset == offset && r.calls[0].jdbcMapping == GetJdbcMapping()
      ensures r.returned == GetJdbcTypeCount()
    {
      FanOut([JdbcTypeCall(offset, GetJdbcMapping())], GetJdbcTypeCount())
    }

    /** The discriminator value is already what the column stores. */
    function Disassemble(value: Value): (r: Value)
      ensures r == value
    {
      value
    }

    function BreakDownJdbcValues(domainValue: Value): (r: seq<ValueCall>)
      ensures |r| == 1 && r[0].value == domainValue && r[0].selectable == this
    {
      [ValueCall(Disassemble(domainValue), this)]
    }

    function ForEachSelectable(offset: int): (r: FanOut<SelectableCall>)
      ensures |r.calls| == 1
      ensures r.calls[0].offset == offset && r.calls[0].selectable == this
      ensures r.returned == GetJdbcTypeCount()
    {
      FanOut([SelectableCall(offset, this)], GetJdbcTypeCount())
    }
  }

  /** The constructor: the role is the entity's role with the discriminator role name appended. */
  function NewDiscriminatorMapping(entityDescriptor: EntityPersister, discriminatorType: DiscriminatorType,
                                   creationProcess: MappingModelCreationProcess): (r: DiscriminatorMapping)
    ensures |r.role.names| == |entityDescriptor.navigableRole.names| + 1
    ensures r.role.names[..|entityDescriptor.navigableRole.names|] == entityDescriptor.navigableRole.names
    ensures r.role.names[|r.role.names| - 1] == RoleName
    ensures r.entityDescriptor == entityDescriptor && r.discriminatorType == discriminatorType
    ensures r.sessionFactory == creationProcess.sessionFactory
  {
    DiscriminatorMapping(
      NavigableRole(entityDescriptor.navigableRole.names + [RoleName]),
      entityDescriptor,
      discriminatorType,
      creationProcess.sessionFactory)
  }

  /**
   * Every selection the mapping resolves is typed with the underlying basic
   * type, while what it hands back (the result, the fetch's fetchable, the
   * consumer's mapping) carries the discriminator type; the two never coincide.
   */
  lemma SelectionsUseUnderlyingType(m: DiscriminatorMapping, path: NavigablePath, tableGroup: TableGroup,
                                    resultVariable: Option<string>, state: SqlAstCreationState)
    ensures m.CreateDomainResult(path, tableGroup, resultVariable, state).request.jdbcMapping == Basic(m.GetUnderlyingJdbcMappingType())
    ensures m.ApplySqlSelections(path, tableGroup, state).jdbcMapping == Basic(m.GetUnderlyingJdbcMappingType())
    ensures m.ApplySqlSelectionsTo(path, tableGroup, state).request.jdbcMapping == Basic(m.GetUnderlyingJdbcMappingType())
    ensures m.CreateDomainResult(path, tableGroup, resultVariable, state).result.jdbcMapping != Basic(m.GetUnderlyingJdbcMappingType())
    ensures m.ApplySqlSelectionsTo(path, tableGroup, state).calls[0].jdbcMapping != m.ApplySqlSelectionsTo(path, tableGroup, state).request.jdbcMapping
    ensures m.CreateDomainResult(path, tableGroup, resultVariable, state).request.jdbcJavaType == m.discriminatorType.underlyingType.jdbcJavaType
  {
  }

  /** The same for a fetch, whose table group is the one registered for its parent. */
  lemma FetchUsesUnderlyingType(m: DiscriminatorMapping, fetchParent: FetchParent, fetchablePath: NavigablePath,
                                timing: FetchTiming, selected: bool, resultVariable: Option<string>, state: SqlAstCreationState)
    requires fetchParent.navigablePath in state.tableGroups
    ensures m.GenerateFetch(fetchParent, fetchablePath, timing, selected, resultVariable, state).request.jdbcMapping
            == Basic(m.GetUnderlyingJdbcMappingType())
    ensures m.GenerateFetch(fetchParent, fetchablePath, timing, selected, resultVariable, state).fetch.fetchable.GetJdbcMapping()
            == m.GetJdbcMapping()
  {
  }

  /**
   * A fetch and a domain result for the same path and table group make the
   * same request apart from the fetch parent, so with a resolver that ignores
   * the parent they land at the same values-array position.
   */
  lemma FetchAndResultShareSelection(m: DiscriminatorMapping, fetchParent: FetchParent, path: NavigablePath,
                                     timing: FetchTiming, selected: bool, resultVariable: Option<string>,
                                     state: SqlAstCreationState)
    requires fetchParent.navigablePath in state.tableGroups
    requires forall req: SelectionRequest :: state.resolveSqlSelection(req) == state.resolveSqlSelection(req.(fetchParent := None))
    ensures m.GenerateFetch(fetchParent, path, timing, selected, resultVariable, state).fetch.valuesArrayPosition
            == m.CreateDomainResult(path, state.tableGroups[fetchParent.navigablePath], resultVariable, state).result.valuesArrayPosition
  {
    var fetchRequest := m.GenerateFetch(fetchParent, path, timing, selected, resultVariable, state).request;
    var resultRequest := m.CreateDomainResult(path, state.tableGroups[fetchParent.navigablePath], resultVariable, state).request;
    assert fetchRequest.(fetchParent := None) == resultRequest;
    assert state.resolveSqlSelection(fetchRequest) == state.resolveSqlSelection(resultRequest);
  }

  /**
   * The iterations visit the one column at the offset they are given and
   * return the number of columns visited, which does not depend on the
   * offset: the caller adds it to the offset itself.
   */
  lemma IterationsReturnCountNotEnd(m: DiscriminatorMapping, value: Value, clause: Clause, offset: int)
    ensures m.ForEachJdbcType(offset).returned == m.ForEachJdbcType(0).returned == 1
    ensures m.ForEachSelectable(offset).returned == m.ForEachSelectable(0).returned == 1
    ensures m.ForEachDisassembledJdbcValue(value, clause, offset).returned == 1
    ensures m.ForEachJdbcType(offset).returned == offset + 1 <==> offset == 0
    ensures m.ForEachJdbcType(offset).calls[0].offset + m.ForEachJdbcType(offset).returned == offset + m.GetJdbcTypeCount()
  {
  }

  /** Breaking down a value hands over exactly the value disassembled, which is the value itself. */
  lemma BreakDownMatchesDisassembled(m: DiscriminatorMapping, value: Value, clause: Clause, offset: int)
    ensures m.BreakDownJdbcValues(value)[0].value == m.Disassemble(value)
    ensures m.ForEachDisassembledJdbcValue(m.Disassemble(value), clause, offset).calls[0].value == value
  {
  }

  /** The discriminator's role is a child of its entity's role, named by the role name. */
  lemma RoleIsChildOfEntityRole(entity: EntityPersister, discriminatorType: DiscriminatorType,
                                process: MappingModelCreationProcess)
    ensures var m := NewDiscriminatorMapping(entity, discriminatorType, process);
            m.GetNavigableRole().names == entity.navigableRole.names + [RoleName]
            && m.FindContainingEntityMapping() == entity
  {
    var m := NewDiscriminatorMapping(entity, discriminatorType, process);
    var n := |entity.navigableRole.names|;
    assert m.role.names == m.role.names[..n] + [m.role.names[n]];
  }
}
