/**
 * Unique-constraint DDL generation of the default unique delegate: the two
 * inline fragments (always empty), the "alter table ... add constraint"
 * command, the "unique (...)" clause it ends with, and the
 * "alter table ... drop constraint" command.
 *
 * What the dialect contributes is kept uninterpreted: quoting of identifiers,
 * the "alter table" prefix, the quoted name of a column and the two
 * "if exists" capabilities are fields of a Dialect record.
 */
module UniqueDelegate {
  import opened Wrappers

  datatype QualifiedTableName = QualifiedTableName(catalog: Option<string>, schema: Option<string>, tableName: string)

  datatype Table = Table(qualifiedTableName: QualifiedTableName)

  datatype Column = Column(name: string)

  /**
   * A unique key: its name, its table, its columns in declared order and the
   * sparse map from column to order keyword ("asc", "desc", ...).
   */
  datatype UniqueKey = UniqueKey(
    name: string,
    table: Table,
    columns: seq<Column>,
    columnOrderMap: map<Column, string>)

  /** The capabilities of a database dialect that the delegate uses. */
  datatype Dialect = Dialect(
    quote: string -> string,
    alterTableString: string -> string,
    columnQuotedName: Column -> string,   // Column.getQuotedName(dialect)
    supportsIfExistsBeforeConstraintName: bool,
    supportsIfExistsAfterConstraintName: bool)

  /** Formats a qualified table name with the catalog/schema rules in force. */
  datatype SqlStringGenerationContext = SqlStringGenerationContext(format: QualifiedTableName -> string)

  /**
   * The delegate: the dialect it serves and the drop keyword, which a
   * dialect-specific delegate may override.
   */
  datatype UniqueDelegate = UniqueDelegate(dialect: Dialect, dropUnique: string)

  const DefaultDropUnique: string := " drop constraint "

  function DefaultUniqueDelegate(dialect: Dialect): (r: UniqueDelegate)
    ensures r.dialect == dialect
    ensures r.dropUnique == " drop constraint "
  {
    UniqueDelegate(dialect, DefaultDropUnique)
  }

  // ---------------------------------------------------------------------
  // Inline fragments: uniqueness is never expressed inline.

  function GetColumnDefinitionUniquenessFragment(del: UniqueDelegate, column: Column, context: SqlStringGenerationContext): (r: string)
    ensures |r| == 0
  {
    ""
  }

  function GetTableCreationUniqueConstraintsFragment(del: UniqueDelegate, table: Table, context: SqlStringGenerationContext): (r: string)
    ensures |r| == 0
  {
    ""
  }

  // ---------------------------------------------------------------------
  // The "unique (...)" clause.

  /** The order suffix of a column: " " + its order when it has one, nothing otherwise. */
  function OrderSuffix(key: UniqueKey, column: Column): (r: string)
    ensures column in key.columnOrderMap <==> r != ""
    ensures column in key.columnOrderMap ==> r == " " + key.columnOrderMap[column]
  {
    if column in key.columnOrderMap then " " + key.columnOrderMap[column] else ""
  }

  /** What one column contributes: its quoted name followed by its order suffix. */
  function ColumnFragment(d: Dialect, key: UniqueKey, column: Column): string
  {
    d.columnQuotedName(column) + OrderSuffix(key, column)
  }

  function ColumnFragments(d: Dialect, key: UniqueKey): (r: seq<string>)
    ensures |r| == |key.columns|
    ensures forall k :: 0 <= k < |r| ==> r[k] == ColumnFragment(d, key, key.columns[k])
  {
    seq(|key.columns|, k requires 0 <= k < |key.columns| => ColumnFragment(d, key, key.columns[k]))
  }

  /** Fragments joined by ", ". */
  function ColumnList(frags: seq<string>): string
  {
    if |frags| == 0 then ""
    else if |frags| == 1 then frags[0]
    else frags[0] + ", " + ColumnList(frags[1..])
  }

  /** Where the k-th fragment starts in ColumnList(frags). */
  function Offset(frags: seq<string>, k: nat): nat
    requires k <= |frags|
  {
    if k == 0 then 0 else Offset(frags, k - 1) + |frags[k - 1]| + 2
  }

  function SumLengths(frags: seq<string>): nat
  {
    if |frags| == 0 then 0 else |frags[0]| + SumLengths(frags[1..])
  }

  /** The text uniqueConstraintSql produces. */
  function UniqueConstraintText(d: Dialect, key: UniqueKey): string
  {
    "unique (" + ColumnList(ColumnFragments(d, key)) + ")"
  }

  /**
   * The clause opens with "unique (" and closes with ")"; without columns it is
   * exactly "unique ()": nothing rejects an empty key.
   */
  lemma UniqueConstraintShape(d: Dialect, key: UniqueKey)
    ensures var t := UniqueConstraintText(d, key);
      |t| >= 9 && t[..8] == "unique (" && t[|t| - 1] == ')'
    ensures |key.columns| == 0 ==> UniqueConstraintText(d, key) == "unique ()"
  {
    var body := ColumnList(ColumnFragments(d, key));
    SliceConcat("unique (" + body, ")", 0, 8);
    SliceConcat("unique (", body, 0, 8);
  }

  /** Appending a fragment on the right adds a separator only if something precedes it. */
  lemma {:induction false} ColumnListSnoc(frags: seq<string>, f: string)
    ensures ColumnList(frags + [f]) == if |frags| == 0 then f else ColumnList(frags) + ", " + f
  {
    if |frags| == 0 {
      assert frags + [f] == [f];
    } else if |frags| == 1 {
      assert frags + [f] == [frags[0], f];
      assert [frags[0], f][1..] == [f];
    } else {
      assert (frags + [f])[1..] == frags[1..] + [f];
      ColumnListSnoc(frags[1..], f);
    }
  }

  lemma {:induction false} OffsetTail(frags: seq<string>, k: nat)
    requires 1 <= k <= |frags|
    ensures Offset(frags, k) == |frags[0]| + 2 + Offset(frags[1..], k - 1)
  {
    if k > 1 {
      OffsetTail(frags, k - 1);
    }
  }

  lemma SliceConcat(a: string, b: string, i: nat, j: nat)
    requires i <= j <= |a| + |b|
    ensures j <= |a| ==> (a + b)[i..j] == a[i..j]
    ensures |a| <= i ==> (a + b)[i..j] == b[i - |a|..j - |a|]
  {
  }

  /** A list of two or more fragments is the first one, ", " and the list of the others. */
  lemma ColumnListCons(frags: seq<string>)
    requires |frags| >= 2
    ensures ColumnList(frags) == (frags[0] + ", ") + ColumnList(frags[1..])
  {
  }

  /** The k-th fragment sits at Offset(frags, k). */
  lemma {:induction false} FragmentAt(frags: seq<string>, k: nat)
    requires k < |frags|
    ensures Offset(frags, k) + |frags[k]| <= |ColumnList(frags)|
    ensures ColumnList(frags)[Offset(frags, k)..Offset(frags, k) + |frags[k]|] == frags[k]
  {
    var f := frags[k];
    if |frags| == 1 {
      assert ColumnList(frags) == f;
      assert f[0..|f|] == f;
      assert Offset(frags, k) == 0;
    } else {
      var h, tail := frags[0] + ", ", ColumnList(frags[1..]);
      ColumnListCons(frags);
      if k == 0 {
        SliceConcat(h, tail, 0, |f|);
        SliceConcat(f, ", ", 0, |f|);
        assert f[0..|f|] == f;
        assert (h + tail)[0..|f|] == f;
        assert Offset(frags, k) == 0;
      } else {
        OffsetTail(frags, k);
        FragmentAt(frags[1..], k - 1);
        var o := Offset(frags[1..], k - 1);
        assert frags[1..][k - 1] == f;
        assert tail[o..o + |f|] == f;
        SliceConcat(h, tail, |h| + o, |h| + o + |f|);
        assert (h + tail)[|h| + o..|h| + o + |f|] == f;
        assert Offset(frags, k) == |h| + o;
      }
    }
  }

  /** Between the k-th fragment and the next one stands ", ". */
  lemma {:induction false} SeparatorAfter(frags: seq<string>, k: nat)
    requires k + 1 < |frags|
    ensures Offset(frags, k + 1) <= |ColumnList(frags)|
    ensures ColumnList(frags)[Offset(frags, k) + |frags[k]|..Offset(frags, k + 1)] == ", "
  {
    var h, tail := frags[0] + ", ", ColumnList(frags[1..]);
    ColumnListCons(frags);
    if k == 0 {
      SliceConcat(h, tail, |frags[0]|, |h|);
      SliceConcat(frags[0], ", ", |frags[0]|, |h|);
      assert (h + tail)[|frags[0]|..|h|] == ", ";
      assert Offset(frags, 0) + |frags[0]| == |frags[0]| && Offset(frags, 1) == |h|;
    } else {
      OffsetTail(frags, k);
      OffsetTail(frags, k + 1);
      SeparatorAfter(frags[1..], k - 1);
      var o, o' := Offset(frags[1..], k - 1), Offset(frags[1..], k);
      assert frags[1..][k - 1] == frags[k];
      assert tail[o + |frags[k]|..o'] == ", ";
      SliceConcat(h, tail, |h| + o + |frags[k]|, |h| + o');
      assert (h + tail)[|h| + o + |frags[k]|..|h| + o'] == ", ";
      assert Offset(frags, k) == |h| + o && Offset(frags, k + 1) == |h| + o';
    }
  }

  /** The last fragment ends the list. */
  lemma {:induction false} LastFragmentEnds(frags: seq<string>)
    requires |frags| > 0
    ensures Offset(frags, |frags| - 1) + |frags[|frags| - 1]| == |ColumnList(frags)|
  {
    if |frags| > 1 {
      ColumnListCons(frags);
      OffsetTail(frags, |frags| - 1);
      LastFragmentEnds(frags[1..]);
    }
  }

  /**
   * The layout of a joined column list: the k-th fragment sits at Offset(frags, k),
   * followed by ", " when another fragment comes after it, and by the end of the
   * text when it is the last.
   */
  lemma ColumnListLayout(frags: seq<string>, k: nat)
    requires k < |frags|
    ensures Offset(frags, k) + |frags[k]| <= |ColumnList(frags)|
    ensures ColumnList(frags)[Offset(frags, k)..Offset(frags, k) + |frags[k]|] == frags[k]
    ensures k + 1 < |frags| ==>
      && Offset(frags, k + 1) <= |ColumnList(frags)|
      && ColumnList(frags)[Offset(frags, k) + |frags[k]|..Offset(frags, k + 1)] == ", "
    ensures k + 1 == |frags| ==> Offset(frags, k) + |frags[k]| == |ColumnList(frags)|
  {
    FragmentAt(frags, k);
    if k + 1 < |frags| {
      SeparatorAfter(frags, k);
    } else {
      LastFragmentEnds(frags);
    }
  }

  /** n fragments are joined by exactly n - 1 two-character separators and nothing else. */
  lemma {:induction false} ColumnListLength(frags: seq<string>)
    requires |frags| > 0
    ensures |ColumnList(frags)| == SumLengths(frags) + 2 * (|frags| - 1)
  {
    if |frags| > 1 {
      ColumnListLength(frags[1..]);
    }
  }

  /**
   * The k-th declared column, in the text of the "unique (...)" clause: at
   * 8 + Offset(fragments, k) stand its quoted name and its order suffix
   * (present iff the column is in the order map, see OrderSuffix), then ", "
   * before the next column, or the closing parenthesis after the last one.
   */
  lemma ColumnRendering(d: Dialect, key: UniqueKey, k: nat)
    requires k < |key.columns|
    ensures
      var t := UniqueConstraintText(d, key);
      var frags := ColumnFragments(d, key);
      var f := d.columnQuotedName(key.columns[k]) + OrderSuffix(key, key.columns[k]);
      var p := 8 + Offset(frags, k);
      && p + |f| < |t|
      && t[p..p + |f|] == f
      && (k + 1 < |key.columns| ==>
            && 8 + Offset(frags, k + 1) < |t|
            && t[p + |f|..8 + Offset(frags, k + 1)] == ", ")
      && (k + 1 == |key.columns| ==> p + |f| == |t| - 1)
  {
    var frags := ColumnFragments(d, key);
    var body := ColumnList(frags);
    var t := "unique (" + body + ")";
    var o := Offset(frags, k);
    var f := frags[k];
    assert t == UniqueConstraintText(d, key);
    assert f == d.columnQuotedName(key.columns[k]) + OrderSuffix(key, key.columns[k]);
    ColumnListLayout(frags, k);
    InsideParentheses(body, 8 + o, 8 + o + |f|);
    assert t[8 + o..8 + o + |f|] == f;
    if k + 1 < |key.columns| {
      InsideParentheses(body, 8 + o + |f|, 8 + Offset(frags, k + 1));
      assert t[8 + o + |f|..8 + Offset(frags, k + 1)] == ", ";
    }
  }

  /** Inside the parentheses, the clause's text is the column list's. */
  lemma InsideParentheses(body: string, i: nat, j: nat)
    requires 8 <= i <= j <= 8 + |body|
    ensures ("unique (" + body + ")")[i..j] == body[i - 8..j - 8]
  {
    SliceConcat("unique (" + body, ")", i, j);
    SliceConcat("unique (", body, i, j);
  }

  /**
   * uniqueConstraintSql: appends "unique (", then each column in declared
   * order, a ", " before every column but the first, the column's quoted name
   * and, when the column has an order, " " and that order; then ")".
   */
  method UniqueConstraintSql(del: UniqueDelegate, key: UniqueKey) returns (sql: string)
    ensures sql == UniqueConstraintText(del.dialect, key)
  {
    ghost var frags := ColumnFragments(del.dialect, key);
    var sb := "unique (";
    var first := true;
    var i := 0;
    while i < |key.columns|
      invariant 0 <= i <= |key.columns|
      invariant first <==> i == 0
      invariant sb == "unique (" + ColumnList(frags[..i])
    {
      var column := key.columns[i];
      ghost var before := sb;
      ghost var separator := if first then "" else ", ";
      if first {
        first := false;
      } else {
        sb := sb + ", ";
      }
      sb := sb + del.dialect.columnQuotedName(column);
      if column in key.columnOrderMap {
        sb := sb + " " + key.columnOrderMap[column];
      }
      ghost var quoted, suffix := del.dialect.columnQuotedName(column), OrderSuffix(key, column);
      assert sb == before + separator + quoted + suffix;
      assert frags[i] == quoted + suffix;
      ColumnListStep(frags, i);
      Regroup(before, "unique (", ColumnList(frags[..i]), separator, quoted, suffix);
      i := i + 1;
    }
    assert frags[..i] == frags;
    sql := sb + ")";
  }

  lemma Regroup(sb: string, prefix: string, listed: string, separator: string, quoted: string, suffix: string)
    requires sb == prefix + listed
    ensures sb + separator + quoted + suffix == prefix + (listed + separator + (quoted + suffix))
  {
  }

  /** One step of the loop above: the next fragment, preceded by ", " unless it is the first. */
  lemma ColumnListStep(frags: seq<string>, i: nat)
    requires i < |frags|
    ensures ColumnList(frags[..i + 1]) == ColumnList(frags[..i]) + (if i == 0 then "" else ", ") + frags[i]
  {
    assert frags[..i + 1] == frags[..i] + [frags[i]];
    ColumnListSnoc(frags[..i], frags[i]);
  }

  // ---------------------------------------------------------------------
  // The add and drop commands.

  /** The dialect's "alter table" prefix for the key's formatted table name. */
  function AlterTablePrefix(del: UniqueDelegate, key: UniqueKey, context: SqlStringGenerationContext): string
  {
    del.dialect.alterTableString(context.format(key.table.qualifiedTableName))
  }

  function GetAlterTableToAddUniqueKeyCommand(del: UniqueDelegate, key: UniqueKey, context: SqlStringGenerationContext): (r: string)
    ensures
      var head := AlterTablePrefix(del, key, context) + " add constraint " + del.dialect.quote(key.name) + " ";
      && |r| > |head|
      && r[..|head|] == head
      && r[|head|..] == UniqueConstraintText(del.dialect, key)
  {
    AlterTablePrefix(del, key, context) + " add constraint " + del.dialect.quote(key.name) + " "
      + UniqueConstraintText(del.dialect, key)
  }

  /** The text of the drop command, as built by the method below. */
  function DropCommandText(del: UniqueDelegate, key: UniqueKey, context: SqlStringGenerationContext): string
  {
    AlterTablePrefix(del, key, context) + del.dropUnique
      + (if del.dialect.supportsIfExistsBeforeConstraintName then "if exists " else "")
      + del.dialect.quote(key.name)
      + (if del.dialect.supportsIfExistsAfterConstraintName then " if exists" else "")
  }

  method GetAlterTableToDropUniqueKeyCommand(del: UniqueDelegate, key: UniqueKey, context: SqlStringGenerationContext)
    returns (command: string)
    ensures command == DropCommandText(del, key, context)
  {
    var tableName := context.format(key.table.qualifiedTableName);
    var buf := del.dialect.alterTableString(tableName);
    buf := buf + del.dropUnique;
    if del.dialect.supportsIfExistsBeforeConstraintName {
      buf := buf + "if exists ";
    }
    buf := buf + del.dialect.quote(key.name);
    if del.dialect.supportsIfExistsAfterConstraintName {
      buf := buf + " if exists";
    }
    command := buf;
  }

  function WithIfExists(del: UniqueDelegate, before: bool, after: bool): UniqueDelegate
  {
    del.(dialect := del.dialect.(supportsIfExistsBeforeConstraintName := before,
                                 supportsIfExistsAfterConstraintName := after))
  }

  /**
   * Supporting "if exists" before the name inserts exactly "if exists " right
   * after the drop keyword, whatever the other flag says.
   */
  lemma DropIfExistsBefore(del: UniqueDelegate, key: UniqueKey, context: SqlStringGenerationContext, after: bool)
    ensures
      var without := DropCommandText(WithIfExists(del, false, after), key, context);
      var with := DropCommandText(WithIfExists(del, true, after), key, context);
      var h := |AlterTablePrefix(del, key, context) + del.dropUnique|;
      && h <= |without|
      && with == without[..h] + "if exists " + without[h..]
  {
    var h := AlterTablePrefix(del, key, context) + del.dropUnique;
    var tail := del.dialect.quote(key.name) + (if after then " if exists" else "");
    var without := DropCommandText(WithIfExists(del, false, after), key, context);
    assert without == h + tail;
    assert without[..|h|] == h && without[|h|..] == tail;
  }

  /**
   * Supporting "if exists" after the name appends exactly " if exists" at the
   * end, whatever the other flag says.
   */
  lemma DropIfExistsAfter(del: UniqueDelegate, key: UniqueKey, context: SqlStringGenerationContext, before: bool)
    ensures DropCommandText(WithIfExists(del, before, true), key, context)
         == DropCommandText(WithIfExists(del, before, false), key, context) + " if exists"
  {
  }

  /** With neither capability, the command is prefix, drop keyword and quoted name only. */
  lemma DropWithoutIfExists(del: UniqueDelegate, key: UniqueKey, context: SqlStringGenerationContext)
    ensures DropCommandText(WithIfExists(del, false, false), key, context)
         == AlterTablePrefix(del, key, context) + del.dropUnique + del.dialect.quote(key.name)
  {
  }

  /**
   * A single-column key without order: with the identity as quoting and
   * "alter table users" as prefix, the add command reads
   * "alter table users add constraint uk_email unique (email)".
   */
  lemma AddCommandExample(d: Dialect, context: SqlStringGenerationContext)
    requires forall name :: d.quote(name) == name
    requires forall tableName :: d.alterTableString(tableName) == "alter table users"
    requires d.columnQuotedName(Column("email")) == "email"
    ensures
      var key := UniqueKey("uk_email", Table(QualifiedTableName(None, None, "users")), [Column("email")], map[]);
      GetAlterTableToAddUniqueKeyCommand(DefaultUniqueDelegate(d), key, context)
        == "alter table users" + " add constraint " + "uk_email" + " " + "unique (email)"
  {
    var key := UniqueKey("uk_email", Table(QualifiedTableName(None, None, "users")), [Column("email")], map[]);
    assert OrderSuffix(key, Column("email")) == "";
    var frags := ColumnFragments(d, key);
    assert |frags| == 1 && frags[0] == "email";
    assert ColumnList(frags) == "email";
  }
}
