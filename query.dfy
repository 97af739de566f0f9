/** The clause state of a table query and the SQL text it compiles to, together with the
    pure pieces of the builders: sort keys, join names, aggregate projections and the
    UPDATE / DELETE / PIVOT statement shapes. */
module Queries {
  import opened Strings
  import opened Vectors

  // ---------------------------------------------------------------------------
  // Query state
  // ---------------------------------------------------------------------------

  /** Group-by and context-by exclude each other, so a table carries at most one. */
  datatype Grouping = NoGrouping | GroupBy(cols: seq<string>) | ContextBy(cols: seq<string>)

  /** The clause fields of a table. An unset attribute is None. */
  datatype Query = Query(
    name: string,                  // the table name, or a nested query / join expression
    select: Option<seq<string>>,   // projection
    exec: bool,                    // `exec` instead of `select`
    where: Option<seq<string>>,    // conditions, joined with `and`
    grouping: Grouping,
    csort: Option<seq<string>>,
    having: Option<string>,
    sort: Option<seq<string>>,     // order-by keys
    top: Option<string>,
    limit: Option<seq<string>>,
    left: Option<string>,          // left join source
    right: Option<string>,         // right join source
    mergeForUpdate: bool,
    materialized: bool)

  /** A table as the constructor leaves it, once its schema supplied the projection (if any). */
  function Fresh(name: string, columns: Option<seq<string>>, materialized: bool): Query
  {
    Query(name, columns, false, None, NoGrouping, None, None, None, None, None, None, None, false, materialized)
  }

  /** `Table.__copy__`: every clause is copied; the join sources and the merge-for-update flag are not. */
  function CopyOf(q: Query): (r: Query)
    ensures r.left.None? && r.right.None? && !r.mergeForUpdate
    ensures r.(left := q.left, right := q.right, mergeForUpdate := q.mergeForUpdate) == q
  {
    q.(left := None, right := None, mergeForUpdate := false)
  }

  // ---------------------------------------------------------------------------
  // The clause texts
  // ---------------------------------------------------------------------------

  function Keyword(exec: bool): string
  {
    if exec then "exec" else "select"
  }

  /** `_assembleSelect`: `*` when the projection is unset or empty. */
  function AssembleSelect(sel: Option<seq<string>>): (r: string)
    ensures r == "*" <==> sel.None? || sel.value == [] || Join(",", sel.value) == "*"
  {
    if sel.Some? && |sel.value| > 0 then Join(",", sel.value) else "*"
  }

  function AssembleTop(top: Option<string>): string
  {
    if top.Some? && top.value != "" then "top " + top.value else ""
  }

  /** `_assembleWhere` */
  function AssembleWhere(w: Option<seq<string>>): string
  {
    if w.Some? then "where " + Join(" and ", w.value) else ""
  }

  /** `_assembleGroupbyOrContextby`: the columns come from iterating the grouping builder. */
  function AssembleGrouping(g: Grouping): string
  {
    match g
    case NoGrouping => ""
    case GroupBy(cols) => "group by " + Join(",", cols)
    case ContextBy(cols) => "context by " + Join(",", cols)
  }

  function AssembleCsort(c: Option<seq<string>>): string
  {
    if c.Some? then "csort " + Join(",", c.value) else ""
  }

  function AssembleHaving(h: Option<string>): string
  {
    if h.Some? && h.value != "" then "having " + h.value else ""
  }

  function AssembleOrderby(s: Option<seq<string>>): string
  {
    if s.Some? then "order by " + Join(",", s.value) else ""
  }

  /** `_assembleLimit`: an empty list is formatted as Python prints it, `[]`. */
  function AssembleLimit(l: Option<seq<string>>): string
  {
    if l.None? then "" else if |l.value| > 0 then "limit " + Join(",", l.value) else "[]"
  }

  /** The sections of the `showSQL` template, in order. */
  function Parts(q: Query): (r: seq<string>)
    ensures |r| == 11 && r[3] == "from" && r[4] == q.name
  {
    [Keyword(q.exec), AssembleTop(q.top), AssembleSelect(q.select), "from", q.name,
     AssembleWhere(q.where), AssembleGrouping(q.grouping), AssembleCsort(q.csort),
     AssembleHaving(q.having), AssembleOrderby(q.sort), AssembleLimit(q.limit)]
  }

  /** `re.sub(' +', ' ', s.strip())` over the sections joined by single spaces. */
  function Compact(sections: seq<string>): (r: string)
    ensures Tidy(r)
  {
    StripCollapseTidy(Join(" ", sections));
    CollapseSpaces(Strip(Join(" ", sections)))
  }

  /** `Table.showSQL` */
  function ShowSQL(q: Query): (r: string)
    ensures Tidy(r)
  {
    Compact(Parts(q))
  }

  // ---------------------------------------------------------------------------
  // The layout theorem
  // ---------------------------------------------------------------------------

  /** The sections are made of tidy words: what a caller passes in has no stray spaces. */
  predicate TidyQuery(q: Query)
  {
    && Tidy(q.name)
    && (q.select.Some? ==> Words(q.select.value))
    && (q.where.Some? ==> q.where.value != [] && Words(q.where.value))
    && (q.grouping.GroupBy? || q.grouping.ContextBy? ==> q.grouping.cols != [] && Words(q.grouping.cols))
    && (q.csort.Some? ==> q.csort.value != [] && Words(q.csort.value))
    && (q.having.Some? ==> Tidy(q.having.value))
    && (q.sort.Some? ==> q.sort.value != [] && Words(q.sort.value))
    && (q.top.Some? ==> Tidy(q.top.value))
    && (q.limit.Some? ==> Words(q.limit.value))
  }

  lemma TidyCommaClause(word: string, xs: seq<string>)
    requires Tidy(word) && word != [] && xs != [] && Words(xs)
    ensures Tidy(word + " " + Join(",", xs))
  {
    TidyJoinComma(xs);
    TidyPair(word, Join(",", xs));
  }

  lemma TidySelect(sel: Option<seq<string>>)
    requires sel.Some? ==> Words(sel.value)
    ensures Tidy(AssembleSelect(sel))
  {
    if sel.Some? && |sel.value| > 0 { TidyJoinComma(sel.value); }
  }

  lemma TidyWhere(w: Option<seq<string>>)
    requires w.Some? ==> w.value != [] && Words(w.value)
    ensures Tidy(AssembleWhere(w))
  {
    if w.Some? {
      TidyJoinAnd(w.value);
      TidyPair("where", Join(" and ", w.value));
      assert "where " + Join(" and ", w.value) == "where" + " " + Join(" and ", w.value);
    }
  }

  lemma TidyGrouping(g: Grouping)
    requires g.GroupBy? || g.ContextBy? ==> g.cols != [] && Words(g.cols)
    ensures Tidy(AssembleGrouping(g))
  {
    match g
    case NoGrouping =>
    case GroupBy(cols) =>
      TidyCommaClause("group by", cols);
      assert "group by " + Join(",", cols) == "group by" + " " + Join(",", cols);
    case ContextBy(cols) =>
      TidyCommaClause("context by", cols);
      assert "context by " + Join(",", cols) == "context by" + " " + Join(",", cols);
  }

  lemma TidyLimit(l: Option<seq<string>>)
    requires l.Some? ==> Words(l.value)
    ensures Tidy(AssembleLimit(l))
  {
    if l.Some? && |l.value| > 0 {
      TidyCommaClause("limit", l.value);
      assert "limit " + Join(",", l.value) == "limit" + " " + Join(",", l.value);
    }
  }

  lemma TidyTop(top: Option<string>)
    requires top.Some? ==> Tidy(top.value)
    ensures Tidy(AssembleTop(top))
  {
    if top.Some? && top.value != [] {
      TidyPair("top", top.value);
      assert "top " + top.value == "top" + " " + top.value;
    }
  }

  lemma TidyHaving(h: Option<string>)
    requires h.Some? ==> Tidy(h.value)
    ensures Tidy(AssembleHaving(h))
  {
    if h.Some? && h.value != [] {
      TidyPair("having", h.value);
      assert "having " + h.value == "having" + " " + h.value;
    }
  }

  lemma TidyCsort(c: Option<seq<string>>)
    requires c.Some? ==> c.value != [] && Words(c.value)
    ensures Tidy(AssembleCsort(c))
  {
    if c.Some? {
      TidyCommaClause("csort", c.value);
      assert "csort " + Join(",", c.value) == "csort" + " " + Join(",", c.value);
    }
  }

  lemma TidyOrderby(o: Option<seq<string>>)
    requires o.Some? ==> o.value != [] && Words(o.value)
    ensures Tidy(AssembleOrderby(o))
  {
    if o.Some? {
      TidyCommaClause("order by", o.value);
      assert "order by " + Join(",", o.value) == "order by" + " " + Join(",", o.value);
    }
  }

  lemma {:induction false} AllTidyFromWords(xs: seq<string>)
    requires forall k :: 0 <= k < |xs| ==> Tidy(xs[k])
    ensures AllTidy(xs)
    decreases |xs|
  {
    if xs != [] {
      AllTidyFromWords(xs[1..]);
    }
  }

  lemma AllTidyFive(a: string, b: string, c: string, d: string, e: string)
    requires Tidy(a) && Tidy(b) && Tidy(c) && Tidy(d) && Tidy(e)
    ensures AllTidy([a, b, c, d, e])
  {
    var xs := [a, b, c, d, e];
    forall k | 0 <= k < |xs| ensures Tidy(xs[k]) {}
    AllTidyFromWords(xs);
  }

  lemma AllTidyTen(a: string, b: string, c: string, d: string, e: string,
                   f: string, g: string, h: string, i: string, j: string)
    requires Tidy(a) && Tidy(b) && Tidy(c) && Tidy(d) && Tidy(e)
    requires Tidy(f) && Tidy(g) && Tidy(h) && Tidy(i) && Tidy(j)
    ensures AllTidy([a, b, c, d, e, f, g, h, i, j])
  {
    var xs := [a, b, c, d, e, f, g, h, i, j];
    forall k | 0 <= k < |xs| ensures Tidy(xs[k]) {}
    AllTidyFromWords(xs);
  }

  /** Every clause a tidy table assembles is itself tidy. */
  lemma ClausesTidy(q: Query)
    requires TidyQuery(q)
    ensures Tidy(AssembleTop(q.top)) && Tidy(AssembleSelect(q.select)) && Tidy(AssembleWhere(q.where))
    ensures Tidy(AssembleGrouping(q.grouping)) && Tidy(AssembleCsort(q.csort)) && Tidy(AssembleHaving(q.having))
    ensures Tidy(AssembleOrderby(q.sort)) && Tidy(AssembleLimit(q.limit))
  {
    TidyTop(q.top);
    TidySelect(q.select);
    TidyWhere(q.where);
    TidyGrouping(q.grouping);
    TidyCsort(q.csort);
    TidyHaving(q.having);
    TidyOrderby(q.sort);
    TidyLimit(q.limit);
  }

  lemma PartsTidy(q: Query)
    requires TidyQuery(q)
    ensures AllTidy(Parts(q)[1..])
  {
    ClausesTidy(q);
    TidyKeyword("from");
    AllTidyTen(AssembleTop(q.top), AssembleSelect(q.select), "from", q.name, AssembleWhere(q.where),
               AssembleGrouping(q.grouping), AssembleCsort(q.csort), AssembleHaving(q.having),
               AssembleOrderby(q.sort), AssembleLimit(q.limit));
  }

  /** `showSQL` lays the clauses out in template order, each set clause once, separated by single
      spaces: the stripping and collapsing only remove the gaps left by unset clauses. */
  lemma ShowSQLLayout(q: Query)
    requires TidyQuery(q)
    ensures ShowSQL(q) == Join(" ", [Keyword(q.exec)] + NonEmpty(Parts(q)[1..]))
  {
    var p := Parts(q);
    PartsTidy(q);
    assert p == [p[0]] + p[1..];
    SectionsCollapse(p[0], p[1..]);
  }

  /** Copying a table does not change the statement it renders. */
  lemma CopyRendersSame(q: Query)
    ensures Parts(CopyOf(q)) == Parts(q)
    ensures ShowSQL(CopyOf(q)) == ShowSQL(q)
  {
  }

  // ---------------------------------------------------------------------------
  // Builder arguments
  // ---------------------------------------------------------------------------

  /** A string, or a list of strings. `select`, `exec` and the join keys take a tuple as they
      take a list; the grouping helpers and the window aggregates do not, and a tuple there is
      not modelled. */
  datatype Names = OneName(name: string) | NameList(names: seq<string>)

  /** A bare value is treated as a one-element list. */
  function Items(n: Names): (r: seq<string>)
    ensures n.OneName? ==> r == [n.name]
    ensures n.NameList? ==> r == n.names
  {
    match n
    case OneName(x) => [x]
    case NameList(xs) => xs
  }

  /** Conditions or sort keys: one operand, or a list or tuple of them; each is stringified. */
  datatype Operands = OneOperand(x: Operand) | OperandList(xs: seq<Operand>)

  function Texts(o: Operands): (r: seq<string>)
    ensures o.OneOperand? ==> r == [Str(o.x)]
    ensures o.OperandList? ==> |r| == |o.xs| && forall i :: 0 <= i < |r| ==> r[i] == Str(o.xs[i])
  {
    match o
    case OneOperand(x) => [Str(x)]
    case OperandList(xs) => seq(|xs|, i requires 0 <= i < |xs| => Str(xs[i]))
  }

  /** Limit bounds: one integer, or a list or tuple of them. */
  datatype Nums = OneNum(n: int) | NumList(ns: seq<int>)

  function NumTexts(n: Nums): (r: seq<string>)
    ensures n.OneNum? ==> r == [IntToString(n.n)]
    ensures n.NumList? ==> |r| == |n.ns| && forall i :: 0 <= i < |r| ==> r[i] == IntToString(n.ns[i])
  {
    match n
    case OneNum(x) => [IntToString(x)]
    case NumList(xs) => seq(|xs|, i requires 0 <= i < |xs| => IntToString(xs[i]))
  }

  /** The `ascending` argument: one flag for every column, or one flag per column. */
  datatype Ascending = Flag(asc: bool) | Flags(flags: seq<bool>)

  /** Whether column i is sorted descending. */
  predicate Descending(asc: Ascending, i: nat)
  {
    match asc
    case Flag(b) => !b
    case Flags(fs) => i < |fs| && !fs[i]
  }

  // ---------------------------------------------------------------------------
  // Sort and csort keys
  // ---------------------------------------------------------------------------

  /** Whether column i of n takes ` desc` as written: a one-element flag list is compared with
      False as a whole, which never holds. */
  predicate DescendingAsWritten(asc: Ascending, i: nat, n: nat)
  {
    Descending(asc, i) && !(n == 1 && asc.Flags?)
  }

  /** `_setSort` / `_setCsort` as written: one column takes ` desc` only from a bare False. */
  function SortKeysAsWritten(keys: Operands, asc: Ascending): (r: Result<seq<string>>)
    ensures r.Err? <==> asc.Flags? && |asc.flags| != |Texts(keys)|
    ensures r.Err? ==> r.error == SortLengthMismatch
    ensures r.Ok? ==> |r.value| == |Texts(keys)|
    ensures r.Ok? ==> forall i :: 0 <= i < |r.value| ==>
      r.value[i] == Texts(keys)[i] + (if DescendingAsWritten(asc, i, |Texts(keys)|) then " desc" else "")
  {
    var cols := Texts(keys);
    if asc.Flags? && |asc.flags| != |cols| then Err(SortLengthMismatch)
    else if |cols| > 1 then Ok(seq(|cols|, i requires 0 <= i < |cols| => cols[i] + (if Descending(asc, i) then " desc" else "")))
    else if |cols| == 1 && asc == Flag(false) then Ok([cols[0] + " desc"])
    else Ok(cols)
  }

  /** The sort keys with the per-column flags honoured for every column count. */
  function SortKeys(keys: Operands, asc: Ascending): (r: Result<seq<string>>)
    ensures r.Err? <==> asc.Flags? && |asc.flags| != |Texts(keys)|
    ensures r.Err? ==> r.error == SortLengthMismatch
    ensures r.Ok? ==> |r.value| == |Texts(keys)|
    ensures r.Ok? ==> forall i :: 0 <= i < |r.value| ==>
      r.value[i] == Texts(keys)[i] + (if Descending(asc, i) then " desc" else "")
  {
    var cols := Texts(keys);
    if asc.Flags? && |asc.flags| != |cols| then Err(SortLengthMismatch)
    else Ok(seq(|cols|, i requires 0 <= i < |cols| => cols[i] + (if Descending(asc, i) then " desc" else "")))
  }

  /** The two agree everywhere except on one column with a one-element flag list. */
  lemma SortKeysAgree(keys: Operands, asc: Ascending)
    requires !(|Texts(keys)| == 1 && asc.Flags?)
    ensures SortKeysAsWritten(keys, asc) == SortKeys(keys, asc)
  {
    var cols := Texts(keys);
    if |cols| == 1 {
      var v := SortKeys(keys, asc).value;
      assert |v| == 1;
      if asc.asc {
        assert v[0] == cols[0];
        assert v == cols;
      } else {
        assert v[0] == cols[0] + " desc";
        assert v == [cols[0] + " desc"];
      }
    } else if |cols| == 0 && (asc.Flag? || |asc.flags| == 0) {
      assert SortKeys(keys, asc).value == cols;
    }
  }

  /** `sort("a", ascending=[False])` keeps `a` ascending as written. */
  lemma SortSingleFlagIgnored()
    ensures SortKeysAsWritten(OneOperand(Text("a")), Flags([false])) == Ok(["a"])
    ensures SortKeys(OneOperand(Text("a")), Flags([false])) == Ok(["a desc"])
  {
    assert Texts(OneOperand(Text("a"))) == ["a"];
    assert Descending(Flags([false]), 0);
    var v := SortKeys(OneOperand(Text("a")), Flags([false])).value;
    assert "a" + " desc" == "a desc";
    assert |v| == 1 && v[0] == "a desc";
    assert v == ["a desc"];
  }

  // ---------------------------------------------------------------------------
  // The single-clause builders
  // ---------------------------------------------------------------------------

  /** The name a derived query reads from: the table itself, or its own statement in parentheses. */
  function SourceName(q: Query): (r: string)
    ensures q.materialized ==> r == q.name
    ensures !q.materialized ==> |r| >= 2 && r[0] == '(' && r[|r| - 1] == ')' && r[1..|r| - 1] == ShowSQL(q)
  {
    if q.materialized then q.name else "(" + ShowSQL(q) + ")"
  }

  /** `Table.select` */
  function Select(q: Query, cols: Names): Query
  {
    CopyOf(q).(select := Some(Items(cols)), name := SourceName(q), materialized := false)
  }

  /** `Table.exec` */
  function Exec(q: Query, cols: Names): Query
  {
    Select(q, cols).(exec := true)
  }

  /** `Table.where`: the conditions are appended to those already present. */
  function Where(q: Query, conds: Operands): Query
  {
    CopyOf(q).(where := Some((if q.where.Some? then q.where.value else []) + Texts(conds)))
  }

  /** `Table.sort` */
  function Sort(q: Query, keys: Operands, asc: Ascending): Result<Query>
  {
    match SortKeysAsWritten(keys, asc)
    case Err(e) => Err(e)
    case Ok(ks) => Ok(CopyOf(q).(sort := Some(ks)))
  }

  /** `Table.csort` */
  function Csort(q: Query, keys: Operands, asc: Ascending): Result<Query>
  {
    match SortKeysAsWritten(keys, asc)
    case Err(e) => Err(e)
    case Ok(ks) => Ok(CopyOf(q).(csort := Some(ks)))
  }

  /** `Table.top` */
  function Top(q: Query, n: int): Query
  {
    CopyOf(q).(top := Some(IntToString(n)))
  }

  /** `Table.limit` */
  function Limit(q: Query, n: Nums): Query
  {
    CopyOf(q).(limit := Some(NumTexts(n)))
  }

  /** The `having` builders of the grouping helpers. */
  function Having(q: Query, expr: string): Query
  {
    CopyOf(q).(having := Some(expr))
  }

  /** `Table.groupby` with `_setGroupby`: refused once a context-by is present. */
  function WithGroupBy(q: Query, cols: Names): (r: Result<Query>)
    ensures r.Err? <==> q.grouping.ContextBy?
    ensures r.Err? ==> r.error == GroupingConflict
  {
    if q.grouping.ContextBy? then Err(GroupingConflict)
    else Ok(CopyOf(q).(grouping := GroupBy(Items(cols))))
  }

  /** `Table.contextby` with `_setContextby`: refused once a group-by is present; the merge flag is carried over. */
  function WithContextBy(q: Query, cols: Names): (r: Result<Query>)
    ensures r.Err? <==> q.grouping.GroupBy?
    ensures r.Err? ==> r.error == GroupingConflict
  {
    if q.grouping.GroupBy? then Err(GroupingConflict)
    else Ok(CopyOf(q).(grouping := ContextBy(Items(cols)), mergeForUpdate := q.mergeForUpdate))
  }

  /** `where`, `top`, `limit` and `having` each change one section of the statement and leave
      every other one as it was. */
  lemma WhereChangesOneClause(q: Query, conds: Operands)
    ensures Parts(Where(q, conds)) == Parts(q)[5 := AssembleWhere(Where(q, conds).where)]
  {
  }

  lemma TopParts(q: Query, t: string)
    requires t != ""
    ensures Parts(CopyOf(q).(top := Some(t))) == Parts(q)[1 := "top " + t]
  {
  }

  lemma TopChangesOneClause(q: Query, n: int)
    ensures Parts(Top(q, n)) == Parts(q)[1 := "top " + IntToString(n)]
  {
    TopParts(q, IntToString(n));
  }

  lemma LimitChangesOneClause(q: Query, l: Nums)
    ensures Parts(Limit(q, l)) == Parts(q)[10 := AssembleLimit(Some(NumTexts(l)))]
  {
  }

  lemma HavingChangesOneClause(q: Query, h: string)
    ensures Parts(Having(q, h)) == Parts(q)[8 := AssembleHaving(Some(h))]
  {
  }

  /** `sort` and `csort` change only their own section when they succeed. */
  lemma SortChangesOneClause(q: Query, keys: Operands, asc: Ascending)
    ensures Sort(q, keys, asc).Ok? <==> Csort(q, keys, asc).Ok?
    ensures Sort(q, keys, asc).Ok? ==>
      Parts(Sort(q, keys, asc).value) == Parts(q)[9 := AssembleOrderby(Some(SortKeysAsWritten(keys, asc).value))]
    ensures Csort(q, keys, asc).Ok? ==>
      Parts(Csort(q, keys, asc).value) == Parts(q)[7 := AssembleCsort(Some(SortKeysAsWritten(keys, asc).value))]
  {
  }

  /** `groupby` and `contextby` change only the grouping section when they succeed. */
  lemma GroupingChangesOneClause(q: Query, g: Names)
    ensures WithGroupBy(q, g).Ok? ==> Parts(WithGroupBy(q, g).value) == Parts(q)[6 := "group by " + Join(",", Items(g))]
    ensures WithContextBy(q, g).Ok? ==> Parts(WithContextBy(q, g).value) == Parts(q)[6 := "context by " + Join(",", Items(g))]
  {
  }

  /** `where` keeps the earlier conditions and adds the new ones after them, in order. */
  lemma WhereAppends(q: Query, conds: Operands)
    ensures Where(q, conds).where.Some?
    ensures q.where.Some? ==> Where(q, conds).where.value == q.where.value + Texts(conds)
    ensures q.where.None? ==> Where(q, conds).where.value == Texts(conds)
  {
  }

  /** Selecting from a query that is not materialized nests its statement as the table; the
      projection changes, the other clauses are inherited, and the result is not materialized. */
  lemma SelectNests(q: Query, cols: Names)
    ensures Parts(Select(q, cols)) == Parts(q)[2 := AssembleSelect(Some(Items(cols)))][4 := SourceName(q)]
    ensures !Select(q, cols).materialized && !Exec(q, cols).materialized
    ensures Exec(q, cols).exec && Parts(Exec(q, cols))[0] == "exec"
    ensures !q.materialized ==> Select(q, cols).name == "(" + ShowSQL(q) + ")"
  {
    ProjectionParts(q, Select(q, cols));
  }

  /** Two queries that differ only in their projection and table differ only in those two
      sections. */
  lemma ProjectionParts(q: Query, r: Query)
    requires r.exec == q.exec && r.top == q.top && r.where == q.where && r.grouping == q.grouping
    requires r.csort == q.csort && r.having == q.having && r.sort == q.sort && r.limit == q.limit
    ensures Parts(r) == Parts(q)[2 := AssembleSelect(r.select)][4 := r.name]
  {
  }

  // ---------------------------------------------------------------------------
  // Joins
  // ---------------------------------------------------------------------------

  /** The `on`, `left_on` and `right_on` arguments; None is an argument left at its default. */
  datatype JoinKeys = JoinKeys(on: Option<Names>, leftOn: Option<Names>, rightOn: Option<Names>)

  /** The keys as seen after a right join exchanges the two sides. */
  function SwapSides(k: JoinKeys): JoinKeys
  {
    JoinKeys(k.on, k.rightOn, k.leftOn)
  }

  /** Key resolution shared by the joins: `on` wins; one side alone serves both sides. */
  function ResolveKeys(k: JoinKeys): (r: Result<(seq<string>, seq<string>)>)
    ensures r.Err? <==> (k.on.None? &&
      ((k.leftOn.None? && k.rightOn.None?) ||
       (k.leftOn.Some? && k.rightOn.Some? && |Items(k.leftOn.value)| != |Items(k.rightOn.value)|)))
    ensures r.Err? ==> r.error == (if k.leftOn.None? then MissingJoinKey else JoinKeyLengthMismatch)
    ensures r.Ok? ==> |r.value.0| == |r.value.1|
    ensures r.Ok? && k.on.Some? ==> r.value.0 == Items(k.on.value) && r.value.1 == Items(k.on.value)
    ensures r.Ok? && k.on.None? && k.leftOn.Some? ==> r.value.0 == Items(k.leftOn.value)
    ensures r.Ok? && k.on.None? && k.rightOn.Some? ==> r.value.1 == Items(k.rightOn.value)
    ensures r.Ok? && (k.on.Some? || k.leftOn.None? || k.rightOn.None?) ==> r.value.0 == r.value.1
  {
    if k.on.Some? then Ok((Items(k.on.value), Items(k.on.value)))
    else if k.leftOn.None? && k.rightOn.None? then Err(MissingJoinKey)
    else if k.leftOn.Some? && k.rightOn.Some? then
      if |Items(k.leftOn.value)| != |Items(k.rightOn.value)| then Err(JoinKeyLengthMismatch)
      else Ok((Items(k.leftOn.value), Items(k.rightOn.value)))
    else if k.leftOn.Some? then Ok((Items(k.leftOn.value), Items(k.leftOn.value)))
    else Ok((Items(k.rightOn.value), Items(k.rightOn.value)))
  }

  /** Exchanging the sides exchanges the resolved keys and keeps the errors. */
  lemma ResolveKeysSwap(k: JoinKeys)
    ensures ResolveKeys(SwapSides(k)).Err? <==> ResolveKeys(k).Err?
    ensures ResolveKeys(k).Ok? ==>
      ResolveKeys(SwapSides(k)).value == (ResolveKeys(k).value.1, ResolveKeys(k).value.0)
  {
  }

  /** `f(L,R,`a`b,`c`d)` */
  function JoinName(func: string, l: string, r: string, keys: (seq<string>, seq<string>)): string
  {
    func + "(" + l + "," + r + "," + Backticks(keys.0) + "," + Backticks(keys.1) + ")"
  }

  /** The join function for each `how` of `merge`. */
  const HowMap: map<string, string> :=
    map["inner" := "ej", "left" := "lj", "right" := "lj", "outer" := "fj", "left semi" := "lsj"]

  /** The sorted variant of a join is its name prefixed with `s`, except for a full join. */
  function SortPrefix(func: string, sort: bool): (r: string)
    ensures r == "s" <==> sort && func != "fj"
    ensures r != "s" ==> r == ""
  {
    if !sort || func == "fj" then "" else "s"
  }

  /** The table expression `merge` reads from. */
  function MergeName(l: string, r: string, how: string, k: JoinKeys, sort: bool): (n: Result<string>)
    ensures n.Err? <==> how !in HowMap || ResolveKeys(if how == "right" then SwapSides(k) else k).Err?
    ensures n.Err? && how !in HowMap ==> n.error == UnknownJoinKind
  {
    if how !in HowMap then Err(UnknownJoinKind)
    else
      var func := SortPrefix(HowMap[how], sort) + HowMap[how];
      var k' := if how == "right" then SwapSides(k) else k;
      var (l', r') := if how == "right" then (r, l) else (l, r);
      match ResolveKeys(k')
      case Err(e) => Err(e)
      case Ok(keys) => Ok(JoinName(func, l', r', keys))
  }

  /** A right join is the left join of the exchanged operands and keys. */
  lemma RightJoinSwaps(l: string, r: string, k: JoinKeys, sort: bool)
    ensures MergeName(l, r, "right", k, sort) == MergeName(r, l, "left", SwapSides(k), sort)
  {
    assert "right" in HowMap && "left" in HowMap;
    assert HowMap["right"] == HowMap["left"];
  }

  lemma JoinNameShape(func: string, l: string, r: string, keys: (seq<string>, seq<string>))
    requires func != ""
    ensures var n := JoinName(func, l, r, keys);
      StartsWith(n, func + "(") && n[|n| - 1] == ')' && n[0] == func[0]
  {
    var rest := l + "," + r + "," + Backticks(keys.0) + "," + Backticks(keys.1) + ")";
    assert JoinName(func, l, r, keys) == func + "(" + rest;
    StartsWithConcat(func + "(", rest);
  }

  lemma HowMapFacts(how: string)
    requires how in HowMap
    ensures HowMap[how] != "" && HowMap[how][0] != 's'
    ensures HowMap[how] == "fj" <==> how == "outer"
  {
  }

  /** The name is the join function, with `s` in front exactly for a sorted join other than
      the full join, then an opening parenthesis; it ends with a closing one. */
  lemma MergeNameShape(l: string, r: string, how: string, k: JoinKeys, sort: bool)
    requires MergeName(l, r, how, k, sort).Ok?
    ensures how in HowMap
    ensures var n := MergeName(l, r, how, k, sort).value;
      StartsWith(n, SortPrefix(HowMap[how], sort) + HowMap[how] + "(") && n[|n| - 1] == ')' &&
      (n[0] == 's' <==> sort && how != "outer")
  {
    var func := HowMap[how];
    HowMapFacts(how);
    var f := SortPrefix(func, sort) + func;
    var k' := if how == "right" then SwapSides(k) else k;
    var (l', r') := if how == "right" then (r, l) else (l, r);
    JoinNameShape(f, l', r', ResolveKeys(k').value);
    assert f[0] == 's' <==> SortPrefix(func, sort) == "s";
  }

  /** `Table.merge`: the name is worked out first; then, on the copy's way out, the projections
      of both sides are read, which fails when either was never set. */
  function Merge(q: Query, right: Query, how: string, k: JoinKeys, sort: bool, forUpdate: bool): (r: Result<Query>)
    ensures r.Err? <==> MergeName(SourceName(q), SourceName(right), how, k, sort).Err? || q.select.None? || right.select.None?
    ensures r.Err? ==> r.error == (if MergeName(SourceName(q), SourceName(right), how, k, sort).Err?
                                   then MergeName(SourceName(q), SourceName(right), how, k, sort).error else SelectUnset)
  {
    match MergeName(SourceName(q), SourceName(right), how, k, sort)
    case Err(e) => Err(e)
    case Ok(n) =>
      if q.select.None? || right.select.None? then Err(SelectUnset)
      else
        Ok(CopyOf(q).(left := Some(q.name), right := Some(right.name), name := n, select := Some(["*"]),
                      mergeForUpdate := forUpdate, materialized := false))
  }

  /** Unfolding lemma: a join fails as its name does, then for an unset projection, and otherwise
      is the copy reading from that name. */
  lemma MergeOk(q: Query, right: Query, how: string, k: JoinKeys, sort: bool, forUpdate: bool)
    ensures var n := MergeName(SourceName(q), SourceName(right), how, k, sort);
      Merge(q, right, how, k, sort, forUpdate) ==
        if n.Err? then Err(n.error)
        else if q.select.None? || right.select.None? then Err(SelectUnset)
        else Ok(CopyOf(q).(left := Some(q.name), right := Some(right.name), name := n.value, select := Some(["*"]),
                           mergeForUpdate := forUpdate, materialized := false))
  {
  }

  /** The joined query projects `*` from the join expression, remembers both source names,
      carries the update flag it was given, is not materialized, and keeps the other clauses. */
  lemma MergeResult(q: Query, right: Query, how: string, k: JoinKeys, sort: bool, forUpdate: bool)
    requires Merge(q, right, how, k, sort, forUpdate).Ok?
    ensures var j := Merge(q, right, how, k, sort, forUpdate).value;
      j.name == MergeName(SourceName(q), SourceName(right), how, k, sort).value &&
      j.left == Some(q.name) && j.right == Some(right.name) &&
      AssembleSelect(j.select) == "*" && j.mergeForUpdate == forUpdate && !j.materialized &&
      Parts(j)[5..] == Parts(q)[5..] && j.exec == q.exec && j.top == q.top
  {
  }

  /** The asof join name `aj(L,R,keys,keys)`. */
  function AsofName(l: string, r: string, k: JoinKeys): (n: Result<string>)
    ensures n.Err? <==> ResolveKeys(k).Err?
    ensures n.Ok? ==> StartsWith(n.value, "aj(") && n.value[|n.value| - 1] == ')'
  {
    match ResolveKeys(k)
    case Err(e) => Err(e)
    case Ok(keys) =>
      var rest := l + "," + r + "," + Backticks(keys.0) + "," + Backticks(keys.1) + ")";
      assert JoinName("aj", l, r, keys) == "aj(" + rest;
      StartsWithConcat("aj(", rest);
      Ok("aj(" + rest)
  }

  /** `Table.merge_asof`: like `merge`, including the failure on an unset projection, but the
      update flag is never set. */
  function MergeAsof(q: Query, right: Query, k: JoinKeys): (r: Result<Query>)
    ensures r.Err? <==> ResolveKeys(k).Err? || q.select.None? || right.select.None?
    ensures r.Err? ==> r.error == (if ResolveKeys(k).Err? then ResolveKeys(k).error else SelectUnset)
    ensures r.Ok? ==> r.value.name == AsofName(SourceName(q), SourceName(right), k).value
    ensures r.Ok? ==> r.value.left == Some(q.name) && r.value.right == Some(right.name)
    ensures r.Ok? ==> r.value.select == Some(["*"]) && !r.value.mergeForUpdate && !r.value.materialized
  {
    match AsofName(SourceName(q), SourceName(right), k)
    case Err(e) => Err(e)
    case Ok(n) =>
      if q.select.None? || right.select.None? then Err(SelectUnset)
      else
        Ok(CopyOf(q).(left := Some(q.name), right := Some(right.name), name := n, select := Some(["*"]),
                      materialized := false))
  }

  /** Unfolding lemma: an asof join fails as its name does, then for an unset projection, and
      otherwise is the copy reading from that name. */
  lemma MergeAsofOk(q: Query, right: Query, k: JoinKeys)
    ensures var n := AsofName(SourceName(q), SourceName(right), k);
      MergeAsof(q, right, k) ==
        if n.Err? then Err(n.error)
        else if q.select.None? || right.select.None? then Err(SelectUnset)
        else Ok(CopyOf(q).(left := Some(q.name), right := Some(right.name), name := n.value, select := Some(["*"]),
                           materialized := false))
  {
  }

  /** The aggregate list of a window join: a bare expression, or `[f1,f2]` for a list. */
  function WindowAggs(aggs: Names): string
  {
    match aggs
    case OneName(a) => a
    case NameList(xs) => "[" + Join(",", xs) + "]"
  }

  /** The window join name `wj(L,R,lo:hi,<aggs>,keys,keys)`, or `pwj(...)` when prevailing. */
  function WindowName(l: string, r: string, lo: int, hi: int, aggs: Names, k: JoinKeys, prevailing: bool): (n: Result<string>)
    ensures n.Err? <==> ResolveKeys(k).Err?
    ensures n.Ok? && prevailing ==> StartsWith(n.value, "pwj(")
    ensures n.Ok? && !prevailing ==> StartsWith(n.value, "wj(")
    ensures n.Ok? ==> n.value[|n.value| - 1] == ')'
  {
    match ResolveKeys(k)
    case Err(e) => Err(e)
    case Ok(keys) =>
      var body := WindowArgs(l, r, lo, hi, aggs, keys);
      var func := if prevailing then "pwj(" else "wj(";
      StartsWithConcat(func, body);
      Ok(func + body)
  }

  /** The arguments of a window join and its closing parenthesis. */
  function WindowArgs(l: string, r: string, lo: int, hi: int, aggs: Names, keys: (seq<string>, seq<string>)): (s: string)
    ensures |s| > 0 && s[|s| - 1] == ')'
  {
    WindowHead(l, r, lo, hi, aggs) + KeysTail(keys)
  }

  /** The operands, the window bounds and the aggregates, before the key lists. */
  function WindowHead(l: string, r: string, lo: int, hi: int, aggs: Names): string
  {
    l + "," + r + "," + IntToString(lo) + ":" + IntToString(hi) + ",<" + WindowAggs(aggs) + ">"
  }

  /** `Table.merge_window`: the operands are the bare table names, and the source's
      materialization is kept. */
  function MergeWindow(q: Query, right: Query, lo: int, hi: int, aggs: Names, k: JoinKeys, prevailing: bool): (r: Result<Query>)
    ensures r.Err? <==> ResolveKeys(k).Err?
    ensures r.Ok? ==> r.value.name == WindowName(q.name, right.name, lo, hi, aggs, k, prevailing).value
    ensures r.Ok? ==> r.value.select == Some(["*"]) && r.value.materialized == q.materialized && !r.value.mergeForUpdate
    ensures r.Ok? ==> r.value.left == Some(q.name) && r.value.right == Some(right.name)
  {
    match WindowName(q.name, right.name, lo, hi, aggs, k, prevailing)
    case Err(e) => Err(e)
    case Ok(n) => Ok(CopyOf(q).(left := Some(q.name), right := Some(right.name), name := n, select := Some(["*"])))
  }

  /** Unfolding lemma: a window join fails as its name does, and otherwise is the copy reading
      from that name. */
  lemma MergeWindowOk(q: Query, right: Query, lo: int, hi: int, aggs: Names, k: JoinKeys, prevailing: bool)
    ensures var n := WindowName(q.name, right.name, lo, hi, aggs, k, prevailing);
      MergeWindow(q, right, lo, hi, aggs, k, prevailing) ==
        if n.Err? then Err(n.error)
        else Ok(CopyOf(q).(left := Some(q.name), right := Some(right.name), name := n.value, select := Some(["*"])))
  {
  }

  /** `Table.merge_cross`: `cj(L,R)` over the bare table names; it never fails. */
  function MergeCross(q: Query, right: Query): (r: Query)
    ensures r.name == "cj(" + q.name + "," + right.name + ")"
    ensures r.select == Some(["*"]) && r.materialized == q.materialized && !r.mergeForUpdate
    ensures r.left == Some(q.name) && r.right == Some(right.name)
  {
    CopyOf(q).(left := Some(q.name), right := Some(right.name), name := "cj(" + q.name + "," + right.name + ")",
               select := Some(["*"]))
  }

  /** Key names that neither the backtick list nor the argument list can split. */
  predicate CleanKeys(keys: seq<string>)
  {
    forall i :: 0 <= i < |keys| ==> NoBacktick(keys[i]) && NoChar(keys[i], ',')
  }

  /** Every key list a join is given is made of clean names. */
  predicate JoinKeysClean(k: JoinKeys)
  {
    (k.on.Some? ==> CleanKeys(Items(k.on.value))) &&
    (k.leftOn.Some? ==> CleanKeys(Items(k.leftOn.value))) &&
    (k.rightOn.Some? ==> CleanKeys(Items(k.rightOn.value)))
  }

  /** Reads the two key lists back from the last two arguments of a join expression. */
  function KeysFromName(n: string): Option<(seq<string>, seq<string>)>
  {
    if n == [] || n[|n| - 1] != ')' then None
    else
      var body := n[..|n| - 1];
      match LastIndexOf(body, ',')
      case None => None
      case Some(i) =>
        var front := body[..i];
        match LastIndexOf(front, ',')
        case None => None
        case Some(j) => Some((ParseBackticks(front[j + 1..]), ParseBackticks(body[i + 1..])))
  }

  /** The two key lists that close the argument list of every join. */
  function KeysTail(keys: (seq<string>, seq<string>)): string
  {
    "," + Backticks(keys.0) + "," + Backticks(keys.1) + ")"
  }

  /** Whatever precedes them, two clean key lists closing an argument list read back as given. */
  lemma KeysFromNameOf(pre: string, keys: (seq<string>, seq<string>))
    requires CleanKeys(keys.0) && CleanKeys(keys.1)
    ensures KeysFromName(pre + KeysTail(keys)) == Some(keys)
  {
    var b0, b1 := Backticks(keys.0), Backticks(keys.1);
    BackticksNoChar(keys.0, ',');
    BackticksNoChar(keys.1, ',');
    BackticksRoundTrip(keys.0);
    BackticksRoundTrip(keys.1);
    var front := pre + "," + b0;
    var body := front + "," + b1;
    var n := body + ")";
    assert n == pre + KeysTail(keys);
    assert n[..|n| - 1] == body;
    assert body == front + [','] + b1;
    LastIndexAt(front, ',', b1);
    assert body[..|front|] == front;
    assert body[|front| + 1..] == b1;
    assert front == pre + [','] + b0;
    LastIndexAt(pre, ',', b0);
    assert front[|pre| + 1..] == b0;
  }

  /** The keys of a join can be read back from its name when no key holds a backtick or a comma. */
  lemma JoinKeysRecoverable(func: string, l: string, r: string, keys: (seq<string>, seq<string>))
    requires CleanKeys(keys.0) && CleanKeys(keys.1)
    ensures KeysFromName(JoinName(func, l, r, keys)) == Some(keys)
  {
    assert JoinName(func, l, r, keys) == (func + "(" + l + "," + r) + KeysTail(keys);
    KeysFromNameOf(func + "(" + l + "," + r, keys);
  }

  /** Resolution picks one of the given lists for each side, so clean lists stay clean. */
  lemma ResolvedKeysClean(k: JoinKeys)
    requires JoinKeysClean(k) && ResolveKeys(k).Ok?
    ensures CleanKeys(ResolveKeys(k).value.0) && CleanKeys(ResolveKeys(k).value.1)
  {
  }

  /** The key lists written into a `merge` are the resolved keys, exchanged for a right join. */
  lemma MergeKeysRecoverable(q: Query, right: Query, how: string, k: JoinKeys, sort: bool, forUpdate: bool)
    requires JoinKeysClean(k)
    requires Merge(q, right, how, k, sort, forUpdate).Ok?
    ensures var keys := ResolveKeys(k).value;
      KeysFromName(Merge(q, right, how, k, sort, forUpdate).value.name) ==
        Some(if how == "right" then (keys.1, keys.0) else keys)
  {
    MergeResult(q, right, how, k, sort, forUpdate);
    ResolveKeysSwap(k);
    var k' := if how == "right" then SwapSides(k) else k;
    var (l', r') := if how == "right" then (SourceName(right), SourceName(q)) else (SourceName(q), SourceName(right));
    ResolvedKeysClean(k);
    JoinKeysRecoverable(SortPrefix(HowMap[how], sort) + HowMap[how], l', r', ResolveKeys(k').value);
  }

  lemma AsofNameKeys(l: string, r: string, k: JoinKeys)
    requires JoinKeysClean(k)
    requires AsofName(l, r, k).Ok?
    ensures KeysFromName(AsofName(l, r, k).value) == Some(ResolveKeys(k).value)
  {
    var keys := ResolveKeys(k).value;
    ResolvedKeysClean(k);
    var b0, b1 := Backticks(keys.0), Backticks(keys.1);
    var rest := l + "," + r + "," + b0 + "," + b1 + ")";
    assert AsofName(l, r, k).value == "aj(" + rest;
    assert "aj(" + rest == ("aj(" + l + "," + r) + KeysTail(keys);
    KeysFromNameOf("aj(" + l + "," + r, keys);
  }

  /** The key lists written into a `merge_asof` are the resolved keys. */
  lemma AsofKeysRecoverable(q: Query, right: Query, k: JoinKeys)
    requires JoinKeysClean(k)
    requires MergeAsof(q, right, k).Ok?
    ensures KeysFromName(MergeAsof(q, right, k).value.name) == Some(ResolveKeys(k).value)
  {
    AsofNameKeys(SourceName(q), SourceName(right), k);
  }

  /** A window join name is the function, the head of its arguments, then the key lists. */
  lemma WindowNameSplits(l: string, r: string, lo: int, hi: int, aggs: Names, k: JoinKeys, prevailing: bool)
    requires WindowName(l, r, lo, hi, aggs, k, prevailing).Ok?
    ensures WindowName(l, r, lo, hi, aggs, k, prevailing).value ==
      (if prevailing then "pwj(" else "wj(") + WindowHead(l, r, lo, hi, aggs) + KeysTail(ResolveKeys(k).value)
  {
    var func := if prevailing then "pwj(" else "wj(";
    var keys := ResolveKeys(k).value;
    assert WindowName(l, r, lo, hi, aggs, k, prevailing).value == func + WindowArgs(l, r, lo, hi, aggs, keys);
    AppendRegroup3(func, WindowHead(l, r, lo, hi, aggs), KeysTail(keys));
  }

  lemma WindowNameKeys(l: string, r: string, lo: int, hi: int, aggs: Names, k: JoinKeys, prevailing: bool)
    requires JoinKeysClean(k)
    requires WindowName(l, r, lo, hi, aggs, k, prevailing).Ok?
    ensures KeysFromName(WindowName(l, r, lo, hi, aggs, k, prevailing).value) == Some(ResolveKeys(k).value)
  {
    ResolvedKeysClean(k);
    WindowNameSplits(l, r, lo, hi, aggs, k, prevailing);
    KeysFromNameOf((if prevailing then "pwj(" else "wj(") + WindowHead(l, r, lo, hi, aggs), ResolveKeys(k).value);
  }

  /** The key lists written into a `merge_window` are the resolved keys, whatever the window
      bounds and aggregates before them. */
  lemma WindowKeysRecoverable(q: Query, right: Query, lo: int, hi: int, aggs: Names, k: JoinKeys, prevailing: bool)
    requires JoinKeysClean(k)
    requires MergeWindow(q, right, lo, hi, aggs, k, prevailing).Ok?
    ensures KeysFromName(MergeWindow(q, right, lo, hi, aggs, k, prevailing).value.name) == Some(ResolveKeys(k).value)
  {
    WindowNameKeys(q.name, right.name, lo, hi, aggs, k, prevailing);
  }

  // ---------------------------------------------------------------------------
  // Aggregation: the projection rewrites of `agg` and `agg2`
  // ---------------------------------------------------------------------------

  /** `f + '(' + x + ')'`: the function applied to a column. */
  function Apply(x: string, f: string): string
  {
    f + "(" + x + ")"
  }

  /** A two-level comprehension `[g(x, y) for x in xs for y in ys]`: xs outer, ys inner. */
  function Product<X, Y>(xs: seq<X>, ys: seq<Y>, g: (X, Y) -> string): (r: seq<string>)
    ensures |r| == |xs| * |ys|
  {
    if xs == [] then []
    else
      var row := seq(|ys|, j requires 0 <= j < |ys| => g(xs[0], ys[j]));
      assert |xs| * |ys| == |ys| + (|xs| - 1) * |ys|;
      row + Product(xs[1..], ys, g)
  }

  /** Entry `(i, j)` of the product sits at `i * |ys| + j`. */
  lemma {:induction false} ProductAt<X, Y>(xs: seq<X>, ys: seq<Y>, g: (X, Y) -> string, i: int, j: int)
    requires 0 <= i < |xs| && 0 <= j < |ys|
    ensures i * |ys| + j < |Product(xs, ys, g)|
    ensures Product(xs, ys, g)[i * |ys| + j] == g(xs[i], ys[j])
    decreases i
  {
    assert i * |ys| + j < (i + 1) * |ys| <= |xs| * |ys|;
    if i > 0 {
      ProductAt(xs[1..], ys, g, i - 1, j);
      assert i * |ys| + j == |ys| + ((i - 1) * |ys| + j);
    }
  }

  /** The function, or functions, of a `func` argument. */
  datatype AggFuncs =
    | FuncName(f: string)                     // one function for every column
    | FuncList(fs: seq<string>)               // every function for every column
    | FuncDict(items: seq<(string, Names)>)   // per column, in the dictionary's order
    | OtherFunc                               // any other argument: refused

  /** The dictionary form: each key with each of its functions, keys outer. */
  function DictCalls(items: seq<(string, Names)>): (r: seq<string>)
  {
    if items == [] then []
    else Product([items[0].0], Items(items[0].1), Apply) + DictCalls(items[1..])
  }

  /** The new projection of `TableGroupby.agg`; the current projection must be set. */
  function AggColumns(select: Option<seq<string>>, spec: AggFuncs): (r: Result<seq<string>>)
    ensures r.Err? <==> select.None? || spec.OtherFunc?
    ensures r.Err? ==> r.error == (if select.None? then SelectUnset else InvalidAggregateFunc)
    ensures r.Ok? && spec.FuncName? ==> (|r.value| == |select.value| &&
      forall i :: 0 <= i < |select.value| ==> r.value[i] == Apply(select.value[i], spec.f))
    ensures r.Ok? && spec.FuncList? ==> |r.value| == |select.value| * |spec.fs|
  {
    if select.None? then Err(SelectUnset)
    else match spec
      case FuncName(f) => Ok(seq(|select.value|, i requires 0 <= i < |select.value| => Apply(select.value[i], f)))
      case FuncList(fs) => Ok(Product(select.value, fs, Apply))
      case FuncDict(items) => Ok(DictCalls(items))
      case OtherFunc => Err(InvalidAggregateFunc)
  }

  /** A list of functions applies every function to every column, columns outer. */
  lemma AggListOrder(sel: seq<string>, fs: seq<string>, i: int, j: int)
    requires 0 <= i < |sel| && 0 <= j < |fs|
    ensures var r := AggColumns(Some(sel), FuncList(fs)).value;
      i * |fs| + j < |r| && r[i * |fs| + j] == fs[j] + "(" + sel[i] + ")"
  {
    ProductAt(sel, fs, Apply, i, j);
  }

  /** A single function behaves as the one-element list of it. */
  lemma AggNameIsSingletonList(sel: seq<string>, f: string)
    ensures AggColumns(Some(sel), FuncName(f)) == AggColumns(Some(sel), FuncList([f]))
  {
    var a := AggColumns(Some(sel), FuncName(f)).value;
    var b := AggColumns(Some(sel), FuncList([f])).value;
    assert |b| == |sel|;
    forall i | 0 <= i < |sel| ensures a[i] == b[i] {
      ProductAt(sel, [f], Apply, i, 0);
    }
    assert a == b;
  }

  /** A dictionary giving every key the same functions is the list form over its keys. */
  lemma {:induction false} AggDictUniform(items: seq<(string, Names)>, fs: seq<string>)
    requires forall k :: 0 <= k < |items| ==> Items(items[k].1) == fs
    ensures DictCalls(items) == Product(seq(|items|, k requires 0 <= k < |items| => items[k].0), fs, Apply)
    decreases |items|
  {
    var keys := seq(|items|, k requires 0 <= k < |items| => items[k].0);
    if items != [] {
      AggDictUniform(items[1..], fs);
      assert keys[1..] == seq(|items[1..]|, k requires 0 <= k < |items[1..]| => items[1..][k].0);
      assert [items[0].0] + keys[1..] == keys;
      assert Product(keys, fs, Apply) == Product([keys[0]], fs, Apply) + Product(keys[1..], fs, Apply);
    }
  }

  /** `TableGroupby.agg`: the rewritten projection selected from the grouped table. */
  function GroupAgg(q: Query, spec: AggFuncs): (r: Result<Query>)
    ensures r.Err? <==> AggColumns(q.select, spec).Err?
    ensures r.Ok? ==> r.value == Select(q, NameList(AggColumns(q.select, spec).value))
  {
    match AggColumns(q.select, spec)
    case Err(e) => Err(e)
    case Ok(cols) => Ok(Select(q, NameList(cols)))
  }

  /** `[x for x in xs if x not in drop]` */
  function Without(xs: seq<string>, drop: seq<string>): (r: seq<string>)
    ensures forall i :: 0 <= i < |r| ==> r[i] in xs && r[i] !in drop
    ensures forall x :: x in xs && x !in drop ==> x in r
    ensures |r| <= |xs|
  {
    if xs == [] then []
    else (if xs[0] in drop then [] else [xs[0]]) + Without(xs[1..], drop)
  }

  lemma {:induction false} WithoutNothing(xs: seq<string>, drop: seq<string>)
    requires forall i :: 0 <= i < |xs| ==> xs[i] !in drop
    ensures Without(xs, drop) == xs
    decreases |xs|
  {
    if xs != [] {
      WithoutNothing(xs[1..], drop);
    }
  }

  /** The dictionary entries whose key is not a grouping column. */
  function DictWithout(items: seq<(string, Names)>, drop: seq<string>): (r: seq<(string, Names)>)
    ensures forall i :: 0 <= i < |r| ==> r[i] in items && r[i].0 !in drop
    ensures |r| <= |items|
  {
    if items == [] then []
    else (if items[0].0 in drop then [] else [items[0]]) + DictWithout(items[1..], drop)
  }

  lemma {:induction false} DictWithoutNothing(items: seq<(string, Names)>, drop: seq<string>)
    requires forall i :: 0 <= i < |items| ==> items[i].0 !in drop
    ensures DictWithout(items, drop) == items
    decreases |items|
  {
    if items != [] {
      DictWithoutNothing(items[1..], drop);
    }
  }

  /** The aggregated entries of `TableContextby.agg` skip the grouping columns. */
  function DropGrouping(spec: AggFuncs, cb: seq<string>): AggFuncs
  {
    if spec.FuncDict? then FuncDict(DictWithout(spec.items, cb)) else spec
  }

  /** The new projection of `TableContextby.agg`: the grouping columns, then the aggregates
      of the other columns. */
  function ContextAggColumns(select: Option<seq<string>>, cb: seq<string>, spec: AggFuncs): (r: Result<seq<string>>)
    ensures r.Err? <==> select.None? || spec.OtherFunc?
    ensures r.Ok? ==> |cb| <= |r.value| && r.value[..|cb|] == cb
  {
    if select.None? then Err(SelectUnset)
    else match AggColumns(Some(Without(select.value, cb)), DropGrouping(spec, cb))
      case Err(e) => Err(e)
      case Ok(cols) => assert (cb + cols)[..|cb|] == cb; Ok(cb + cols)
  }

  /** With one function, context-by aggregates exactly the projected columns that are not
      grouping columns, in projection order. */
  lemma ContextAggOneFunction(sel: seq<string>, cb: seq<string>, f: string)
    ensures var r := ContextAggColumns(Some(sel), cb, FuncName(f)).value;
      var rest := Without(sel, cb);
      |r| == |cb| + |rest| && forall i :: 0 <= i < |rest| ==> r[|cb| + i] == Apply(rest[i], f)
  {
  }

  /** When no grouping column is projected or named in the dictionary, context-by aggregation
      is group-by aggregation with the grouping columns in front. */
  lemma ContextAggExtendsGroupAgg(sel: seq<string>, cb: seq<string>, spec: AggFuncs)
    requires forall i :: 0 <= i < |sel| ==> sel[i] !in cb
    requires spec.FuncDict? ==> forall i :: 0 <= i < |spec.items| ==> spec.items[i].0 !in cb
    ensures ContextAggColumns(Some(sel), cb, spec).Ok? <==> AggColumns(Some(sel), spec).Ok?
    ensures ContextAggColumns(Some(sel), cb, spec).Ok? ==>
      ContextAggColumns(Some(sel), cb, spec).value == cb + AggColumns(Some(sel), spec).value
  {
    WithoutNothing(sel, cb);
    if spec.FuncDict? {
      DictWithoutNothing(spec.items, cb);
    }
  }

  /** `TableContextby.agg` */
  function ContextAgg(q: Query, cb: seq<string>, spec: AggFuncs): (r: Result<Query>)
    ensures r.Err? <==> q.select.None? || spec.OtherFunc?
    ensures r.Ok? ==> r.value == Select(q, NameList(ContextAggColumns(q.select, cb, spec).value))
  {
    match ContextAggColumns(q.select, cb, spec)
    case Err(e) => Err(e)
    case Ok(cols) => Ok(Select(q, NameList(cols)))
  }

  /** An element of the `cols` argument of `agg2`: a 2-tuple, or anything else. */
  datatype PairItem = Pair(x: string, y: string) | NotPair

  /** A bare element is treated as a one-element list. */
  datatype Pairs = OnePair(p: PairItem) | PairList(ps: seq<PairItem>)

  function PairItems(p: Pairs): seq<PairItem>
  {
    match p
    case OnePair(x) => [x]
    case PairList(xs) => xs
  }

  predicate AllPairs(ps: seq<PairItem>)
  {
    forall k :: 0 <= k < |ps| ==> ps[k].Pair?
  }

  /** `f + '(' + x + ',' + y + ')'` */
  function Apply2(f: string, p: PairItem): string
  {
    if p.Pair? then f + "(" + p.x + "," + p.y + ")" else ""
  }

  /** The columns computed by `agg2`: every function on every pair, functions outer. */
  function Agg2Columns(funcs: Names, pairs: Pairs): (r: Result<seq<string>>)
    ensures r.Err? <==> !AllPairs(PairItems(pairs))
    ensures r.Err? ==> r.error == InvalidAggregatePairs
    ensures r.Ok? ==> |r.value| == |Items(funcs)| * |PairItems(pairs)|
    ensures r.Ok? ==> (r.value == [] <==> Items(funcs) == [] || PairItems(pairs) == [])
  {
    if !AllPairs(PairItems(pairs)) then Err(InvalidAggregatePairs)
    else
      var n, m := |Items(funcs)|, |PairItems(pairs)|;
      assert n * m == 0 <==> n == 0 || m == 0 by {
        if n > 0 && m > 0 { assert n * m >= m; }
      }
      Ok(Product(Items(funcs), PairItems(pairs), Apply2))
  }

  /** Entry `(i, j)` of `agg2` is function i on pair j. */
  lemma Agg2Order(funcs: Names, pairs: Pairs, i: int, j: int)
    requires AllPairs(PairItems(pairs))
    requires 0 <= i < |Items(funcs)| && 0 <= j < |PairItems(pairs)|
    ensures var r := Agg2Columns(funcs, pairs).value; var p := PairItems(pairs)[j];
      i * |PairItems(pairs)| + j < |r| && r[i * |PairItems(pairs)| + j] == Items(funcs)[i] + "(" + p.x + "," + p.y + ")"
  {
    ProductAt(Items(funcs), PairItems(pairs), Apply2, i, j);
  }

  /** `TableGroupby.agg2`: selects the computed columns; with none, re-selects the current
      projection. */
  function GroupAgg2(q: Query, funcs: Names, pairs: Pairs): (r: Result<Query>)
    ensures r.Err? <==> !AllPairs(PairItems(pairs)) || (Agg2Columns(funcs, pairs) == Ok([]) && q.select.None?)
  {
    match Agg2Columns(funcs, pairs)
    case Err(e) => Err(e)
    case Ok(cols) =>
      if cols != [] then Ok(Select(q, NameList(cols)))
      else if q.select.None? then Err(SelectUnset)
      else Ok(Select(q, NameList(q.select.value)))
  }

  /** `TableContextby.agg2`: the computed columns are appended to the builder's own projection
      (which the builder keeps), and that projection is selected. Returns the builder's table
      and the result. */
  function ContextAgg2(q: Query, funcs: Names, pairs: Pairs): (r: Result<(Query, Query)>)
    ensures r.Err? <==> !AllPairs(PairItems(pairs)) || q.select.None?
    ensures r.Ok? ==> r.value.0 == q.(select := Some(q.select.value + Agg2Columns(funcs, pairs).value))
    ensures r.Ok? ==> r.value.1 == Select(r.value.0, NameList(r.value.0.select.value))
  {
    match Agg2Columns(funcs, pairs)
    case Err(e) => Err(e)
    case Ok(cols) =>
      if q.select.None? then Err(SelectUnset)
      else
        var t := q.(select := Some(q.select.value + cols));
        Ok((t, Select(t, NameList(t.select.value))))
  }

  /** Group-by `agg2` replaces the projection; context-by `agg2` keeps it in front. */
  lemma Agg2Projections(q: Query, funcs: Names, pairs: Pairs)
    requires AllPairs(PairItems(pairs)) && q.select.Some?
    requires Items(funcs) != [] && PairItems(pairs) != []
    ensures GroupAgg2(q, funcs, pairs).Ok? && ContextAgg2(q, funcs, pairs).Ok?
    ensures ContextAgg2(q, funcs, pairs).value.1.select.value ==
      q.select.value + GroupAgg2(q, funcs, pairs).value.select.value
  {
  }

  // ---------------------------------------------------------------------------
  // UPDATE, DELETE and PIVOT statements
  // ---------------------------------------------------------------------------

  /** The `c=v` assignments over the zipped lists; zip stops at the shorter list. */
  function Assignments(cols: seq<string>, vals: seq<string>): (r: seq<string>)
    ensures |r| == (if |cols| < |vals| then |cols| else |vals|)
    ensures forall i :: 0 <= i < |r| ==> r[i] == cols[i] + "=" + vals[i]
  {
    var n := if |cols| < |vals| then |cols| else |vals|;
    seq(n, i requires 0 <= i < n => cols[i] + "=" + vals[i])
  }

  /** `TableUpdate._assembleUpdate`: `c1=v1,c2=v2`. */
  function UpdateSet(cols: seq<string>, vals: seq<string>): string
  {
    Join(",", Assignments(cols, vals))
  }

  /** The context-by section of an update: rendered only for a non-empty column list. */
  function UpdateContextBy(cb: Option<seq<string>>): string
  {
    if cb.Some? && cb.value != [] then "context by " + Join(",", cb.value) else ""
  }

  /** The having section of an update, written with a leading space. */
  function UpdateHaving(h: Option<string>): string
  {
    if h.Some? && h.value != "" then " having " + h.value else ""
  }

  /** `TableUpdate.showSQL` without a join: `update T set A where ... context by ... having ...`,
      with the update's own conditions. */
  function UpdateStatement(table: string, assigns: string, where: Option<seq<string>>, cb: Option<seq<string>>, having: Option<string>): (r: string)
    ensures Tidy(r)
  {
    Compact(["update", table, "set", assigns, AssembleWhere(where), UpdateContextBy(cb), UpdateHaving(having)])
  }

  /** `TableUpdate.showSQL` on a join: the left source is updated from the join expression with
      the joined table's conditions. A missing left source raises; so does a context-by, whose
      columns are read from an attribute the table does not have. */
  function JoinUpdateStatement(left: Option<string>, joinName: string, assigns: string, tableWhere: string,
                               cb: Option<seq<string>>, having: Option<string>): (r: Result<string>)
    ensures r.Err? <==> left.None? || (cb.Some? && cb.value != [])
    ensures r.Err? ==> r.error == (if left.None? then MissingLeftTable else ContextByAttribute)
    ensures r.Ok? ==> Tidy(r.value)
  {
    if left.None? then Err(MissingLeftTable)
    else if cb.Some? && cb.value != [] then Err(ContextByAttribute)
    else Ok(Compact(["update", left.value, "set", assigns, "from", joinName, tableWhere, "", UpdateHaving(having)]))
  }

  /** `TableDelete.showSQL`: `delete from T where ...`, with the delete's own conditions. */
  function DeleteStatement(table: string, where: Option<seq<string>>): (r: string)
    ensures Tidy(r)
  {
    Compact(["delete", "from", table, AssembleWhere(where)])
  }

  /** The projection of a pivot: the value, the aggregate applied to it, or the table's own projection. */
  function PivotSelect(q: Query, value: Option<string>, agg: Option<string>): string
  {
    if value.None? then AssembleSelect(q.select)
    else if agg.None? then value.value
    else Apply(value.value, agg.value)
  }

  /** `TablePivotBy.showSQL`: `select V from T where ... pivot by R,C`. */
  function PivotStatement(q: Query, row: string, col: string, value: Option<string>, agg: Option<string>): (r: string)
    ensures Tidy(r)
  {
    Compact([Keyword(q.exec), PivotSelect(q, value, agg), "from", q.name, AssembleWhere(q.where), "pivot by " + row + "," + col])
  }

  /** A section written with a leading space renders as if it had none. */
  lemma CompactLeadingSpace(xs: seq<string>, t: string)
    requires xs != [] && xs[0] != "" && !IsWhitespace(xs[0][0])
    requires t != "" && !IsWhitespace(t[|t| - 1])
    ensures Compact(xs + [" " + t]) == Compact(xs + [t])
  {
    var j := Join(" ", xs);
    JoinSnoc(" ", xs, " " + t);
    JoinSnoc(" ", xs, t);
    assert j + " " + (" " + t) == j + "  " + t;
    assert j[0] == xs[0][0];
    StripLeftKeeps(j + "  " + t);
    StripRightKeeps(j + "  " + t);
    StripLeftKeeps(j + " " + t);
    StripRightKeeps(j + " " + t);
    CollapseDoubleSpace(j, t);
  }

  lemma TidyUpdateContextBy(cb: Option<seq<string>>)
    requires cb.Some? ==> Words(cb.value)
    ensures Tidy(UpdateContextBy(cb))
  {
    if cb.Some? && cb.value != [] {
      TidyJoinComma(cb.value);
      TidyConcat3("context", "by", Join(",", cb.value));
      assert "context by " + Join(",", cb.value) == "context" + " " + "by" + " " + Join(",", cb.value);
    }
  }

  /** The sections after `update` once the having section's leading space is gone. */
  function UpdateSections(table: string, assigns: string, where: Option<seq<string>>, cb: Option<seq<string>>, h: string): seq<string>
  {
    [table, "set", assigns, AssembleWhere(where), UpdateContextBy(cb), "having " + h]
  }

  lemma UpdateSectionsTidy(table: string, assigns: string, where: Option<seq<string>>, cb: Option<seq<string>>, h: string)
    requires Tidy(table) && Tidy(assigns) && Tidy(h) && h != ""
    requires where.Some? ==> where.value != [] && Words(where.value)
    requires cb.Some? ==> Words(cb.value)
    ensures AllTidy(UpdateSections(table, assigns, where, cb, h))
  {
    TidyWhere(where);
    TidyUpdateContextBy(cb);
    TidyHaving(Some(h));
    AllTidyFromWords(UpdateSections(table, assigns, where, cb, h));
  }

  lemma UpdateHavingSpace(table: string, assigns: string, where: Option<seq<string>>, cb: Option<seq<string>>, h: string)
    requires Tidy(h) && h != ""
    ensures UpdateStatement(table, assigns, where, cb, Some(h)) == Compact(["update"] + UpdateSections(table, assigns, where, cb, h))
  {
    var ys := UpdateSections(table, assigns, where, cb, h);
    var xs := ["update", table, "set", assigns, AssembleWhere(where), UpdateContextBy(cb)];
    var t := "having " + h;
    assert UpdateHaving(Some(h)) == " " + t;
    assert ["update", table, "set", assigns, AssembleWhere(where), UpdateContextBy(cb), UpdateHaving(Some(h))] == xs + [" " + t];
    assert xs + [t] == ["update"] + ys;
    TidyEnds(h);
    assert t[|t| - 1] == h[|h| - 1];
    CompactLeadingSpace(xs, t);
  }

  /** The update statement lays out its non-empty sections in order, separated by single
      spaces; the having section loses its leading space. */
  lemma UpdateLayout(table: string, assigns: string, where: Option<seq<string>>, cb: Option<seq<string>>, h: string)
    requires Tidy(table) && Tidy(assigns)
    requires where.Some? ==> where.value != [] && Words(where.value)
    requires cb.Some? ==> Words(cb.value)
    requires Tidy(h) && h != ""
    ensures UpdateStatement(table, assigns, where, cb, Some(h)) ==
      Join(" ", ["update"] + NonEmpty(UpdateSections(table, assigns, where, cb, h)))
  {
    UpdateHavingSpace(table, assigns, where, cb, h);
    UpdateSectionsCompact(table, assigns, where, cb, h);
  }

  lemma UpdateSectionsCompact(table: string, assigns: string, where: Option<seq<string>>, cb: Option<seq<string>>, h: string)
    requires Tidy(table) && Tidy(assigns) && Tidy(h) && h != ""
    requires where.Some? ==> where.value != [] && Words(where.value)
    requires cb.Some? ==> Words(cb.value)
    ensures Compact(["update"] + UpdateSections(table, assigns, where, cb, h)) ==
      Join(" ", ["update"] + NonEmpty(UpdateSections(table, assigns, where, cb, h)))
  {
    UpdateSectionsTidy(table, assigns, where, cb, h);
    TidyKeyword("update");
    CompactSections("update", UpdateSections(table, assigns, where, cb, h));
  }

  /** Sections after a keyword, each tidy, compact to the non-empty ones joined by spaces. */
  lemma CompactSections(kw: string, ys: seq<string>)
    requires Tidy(kw) && kw != [] && AllTidy(ys)
    ensures Compact([kw] + ys) == Join(" ", [kw] + NonEmpty(ys))
  {
    SectionsCollapse(kw, ys);
  }

  lemma DeleteSectionsTidy(table: string, w: string)
    requires Tidy(table) && Tidy(w)
    ensures AllTidy(["from", table, w])
  {
    var ys := ["from", table, w];
    TidyKeyword("from");
    forall k | 0 <= k < |ys| ensures Tidy(ys[k]) {}
    AllTidyFromWords(ys);
  }

  lemma DeleteNonEmpty(table: string, w: string)
    requires table != ""
    ensures ["delete"] + NonEmpty(["from", table, w]) == ["delete", "from", table] + NonEmpty([w])
  {
    var ys := ["from", table, w];
    assert ys[1..] == [table, w];
    assert [table, w][1..] == [w];
    assert NonEmpty(ys) == ["from", table] + NonEmpty([w]);
  }

  lemma DeleteSectionsCompact(table: string, w: string)
    requires Tidy(table) && table != "" && Tidy(w)
    ensures Compact(["delete", "from", table, w]) == Join(" ", ["delete", "from", table] + NonEmpty([w]))
  {
    var ys := ["from", table, w];
    assert ["delete", "from", table, w] == ["delete"] + ys;
    DeleteSectionsTidy(table, w);
    TidyKeyword("delete");
    CompactSections("delete", ys);
    DeleteNonEmpty(table, w);
  }

  lemma DeleteCollapse(table: string, where: Option<seq<string>>)
    requires Tidy(table) && table != ""
    requires where.Some? ==> where.value != [] && Words(where.value)
    ensures DeleteStatement(table, where) == Join(" ", ["delete", "from", table] + NonEmpty([AssembleWhere(where)]))
  {
    TidyWhere(where);
    DeleteSectionsCompact(table, AssembleWhere(where));
  }

  lemma JoinDeleteFrom(table: string)
    ensures Join(" ", ["delete", "from", table]) == "delete from " + table
  {
    var zs := ["delete", "from", table];
    assert zs[1..] == ["from", table];
    assert zs[1..][1..] == [table];
  }

  /** The delete statement: `delete from T`, then the conditions when there are any. */
  lemma DeleteLayout(table: string, where: Option<seq<string>>)
    requires Tidy(table) && table != ""
    requires where.Some? ==> where.value != [] && Words(where.value)
    ensures where.None? ==> DeleteStatement(table, where) == "delete from " + table
    ensures where.Some? ==> DeleteStatement(table, where) == "delete from " + table + " where " + Join(" and ", where.value)
  {
    var w := AssembleWhere(where);
    DeleteCollapse(table, where);
    JoinDeleteFrom(table);
    if where.None? {
      assert NonEmpty([w]) == [];
      assert ["delete", "from", table] + NonEmpty([w]) == ["delete", "from", table];
    } else {
      assert NonEmpty([w]) == [w];
      JoinSnoc(" ", ["delete", "from", table], w);
    }
  }

  /** A pivot renders the keyword, the projection, the table, the table's conditions and the
      pivot section; no other clause of the table reaches it. */
  lemma PivotIgnoresOtherClauses(q: Query, row: string, col: string, value: Option<string>, agg: Option<string>,
                                 g: Grouping, cs: Option<seq<string>>, h: Option<string>, so: Option<seq<string>>,
                                 top: Option<string>, lim: Option<seq<string>>)
    ensures PivotStatement(q.(grouping := g, csort := cs, having := h, sort := so, top := top, limit := lim), row, col, value, agg)
      == PivotStatement(q, row, col, value, agg)
  {
  }

  lemma PivotByTidy(row: string, col: string)
    requires Words([row, col])
    ensures Tidy("pivot by " + row + "," + col)
  {
    var j := row + "," + col;
    assert Join(",", [row, col]) == j by {
      assert [row, col][1..] == [col];
    }
    TidyJoinComma([row, col]);
    TidyKeyword("by");
    TidyKeyword("pivot");
    TidyPair("by", j);
    TidyPair("pivot", "by" + " " + j);
    assert "pivot" + " " + ("by" + " " + j) == "pivot by " + j;
    AppendRegroup("pivot by ", row, ",", col);
  }

  lemma PivotSectionsTidy(q: Query, row: string, col: string, value: Option<string>, agg: Option<string>)
    requires Tidy(PivotSelect(q, value, agg)) && Tidy(q.name)
    requires q.where.Some? ==> q.where.value != [] && Words(q.where.value)
    requires Words([row, col])
    ensures AllTidy(PivotSections(q, row, col, value, agg))
  {
    TidyWhere(q.where);
    PivotByTidy(row, col);
    TidyKeyword("from");
    AllTidyFive(PivotSelect(q, value, agg), "from", q.name, AssembleWhere(q.where), "pivot by " + row + "," + col);
  }

  /** The pivot sections after the keyword. */
  function PivotSections(q: Query, row: string, col: string, value: Option<string>, agg: Option<string>): seq<string>
  {
    [PivotSelect(q, value, agg), "from", q.name, AssembleWhere(q.where), "pivot by " + row + "," + col]
  }

  /** The pivot statement lays out its non-empty sections in order, ending with `pivot by R,C`. */
  lemma PivotLayout(q: Query, row: string, col: string, value: Option<string>, agg: Option<string>)
    requires Tidy(PivotSelect(q, value, agg)) && Tidy(q.name)
    requires q.where.Some? ==> q.where.value != [] && Words(q.where.value)
    requires Words([row, col])
    ensures PivotStatement(q, row, col, value, agg) ==
      Join(" ", [Keyword(q.exec)] + NonEmpty(PivotSections(q, row, col, value, agg)))
  {
    var ys := PivotSections(q, row, col, value, agg);
    PivotSectionsTidy(q, row, col, value, agg);
    assert [Keyword(q.exec), PivotSelect(q, value, agg), "from", q.name, AssembleWhere(q.where), "pivot by " + row + "," + col]
      == [Keyword(q.exec)] + ys;
    SectionsCollapse(Keyword(q.exec), ys);
  }

  // ---------------------------------------------------------------------------
  // The row-count statement of `Table.rows`
  // ---------------------------------------------------------------------------

  /** `Table.rows` as written: the statement from the first `from` of its lower-cased text
      on, behind `select count(*) as ct `; `str.index` raises when there is none. */
  function CountSQLAsWritten(sql: string): (r: Result<string>)
    ensures r.Err? <==> forall j :: !OccursAt(Lower(sql), "from", j)
    ensures r.Err? ==> r.error == FromNotFound
    ensures r.Ok? ==> exists i :: (OccursAt(Lower(sql), "from", i) &&
      (forall j :: 0 <= j < i ==> !OccursAt(Lower(sql), "from", j)) &&
      r.value == "select count(*) as ct " + sql[i..])
  {
    match IndexOf(Lower(sql), "from")
    case None => Err(FromNotFound)
    case Some(i) =>
      assert OccursAt(Lower(sql), "from", i);
      Ok("select count(*) as ct " + sql[i..])
  }

  const CountHead: string := "select count(*) as ct"

  /** The statement up to the projection: the keyword, the top and the projection. */
  function ProjectionPart(q: Query): string
  {
    Join(" ", [Keyword(q.exec)] + NonEmpty(Parts(q)[1..3]))
  }

  /** The statement from its `from` keyword on. */
  function FromPart(q: Query): string
  {
    Join(" ", ["from"] + NonEmpty(Parts(q)[4..]))
  }

  /** The row count of a query: its own `from` section on, behind the count projection. */
  function CountSQL(q: Query): (r: string)
    ensures Tidy(r)
  {
    Compact([CountHead] + Parts(q)[3..])
  }

  lemma AllTidyDrop(xs: seq<string>)
    requires |xs| >= 2 && AllTidy(xs)
    ensures AllTidy(xs[2..])
  {
    assert xs[1..][1..] == xs[2..];
  }

  /** Splitting the sections at the `from` keyword. */
  lemma SplitAtFrom(kw: string, p: seq<string>)
    requires |p| >= 4 && p[3] == "from"
    ensures Join(" ", [kw] + NonEmpty(p[1..])) ==
      Join(" ", [kw] + NonEmpty(p[1..3])) + " " + Join(" ", ["from"] + NonEmpty(p[4..]))
  {
    assert p[1..] == p[1..3] + p[3..];
    NonEmptyAppend(p[1..3], p[3..]);
    assert p[3..] == ["from"] + p[4..];
    assert NonEmpty(p[3..]) == ["from"] + NonEmpty(p[4..]);
    var a := [kw] + NonEmpty(p[1..3]);
    var b := ["from"] + NonEmpty(p[4..]);
    assert [kw] + NonEmpty(p[1..]) == a + b;
    JoinAppend(" ", a, b);
  }

  lemma CompactAtFrom(head: string, p: seq<string>)
    requires |p| >= 4 && p[3] == "from"
    requires Tidy(head) && head != "" && AllTidy(p[1..])
    ensures Compact([head] + p[3..]) == head + " " + Join(" ", ["from"] + NonEmpty(p[4..]))
  {
    var b := ["from"] + NonEmpty(p[4..]);
    assert Compact([head] + p[3..]) == Join(" ", [head] + NonEmpty(p[3..])) by {
      AllTidyDrop(p[1..]);
      assert p[1..][2..] == p[3..];
      SectionsCollapse(head, p[3..]);
    }
    assert NonEmpty(p[3..]) == b by {
      assert p[3..] == ["from"] + p[4..];
    }
    JoinAppend(" ", [head], b);
  }

  lemma ShowSQLSplits(q: Query)
    requires TidyQuery(q)
    ensures ShowSQL(q) == ProjectionPart(q) + " " + FromPart(q)
  {
    ShowSQLLayout(q);
    SplitAtFrom(Keyword(q.exec), Parts(q));
  }

  lemma CountSQLSplits(q: Query)
    requires TidyQuery(q)
    ensures CountSQL(q) == CountHead + " " + FromPart(q)
  {
    PartsTidy(q);
    assert Tidy(CountHead);
    CompactAtFrom(CountHead, Parts(q));
  }

  /** The count statement keeps exactly the `from` section of the query, whatever the
      projection holds. */
  lemma CountSQLKeepsFromClause(q: Query)
    requires TidyQuery(q)
    ensures ShowSQL(q) == ProjectionPart(q) + " " + FromPart(q)
    ensures CountSQL(q) == CountHead + " " + FromPart(q)
  {
    ShowSQLSplits(q);
    CountSQLSplits(q);
  }

  /** The `from` section starts with its keyword, whatever follows it. */
  lemma FromPartStarts(q: Query)
    ensures StartsWith(Lower(FromPart(q)), "from")
  {
    JoinStartsWith(" ", ["from"] + NonEmpty(Parts(q)[4..]));
    var f := FromPart(q);
    assert Lower(f)[..4] == f[..4];
  }

  /** Neither inside a text without `from` nor across the space after it can `from` begin. */
  lemma NoFromBefore(lp: string, lf: string)
    requires forall j :: !OccursAt(lp, "from", j)
    ensures forall j :: 0 <= j < |lp| + 1 ==> !OccursAt(lp + (" " + lf), "from", j)
  {
    var ls := lp + (" " + lf);
    forall j | 0 <= j < |lp| + 1 ensures !OccursAt(ls, "from", j) {
      if j + 4 <= |lp| {
        OccursInPrefix(lp, " " + lf, "from", j);
      } else if j + 4 <= |ls| {
        assert ls[j..j + 4][|lp| - j] == ls[|lp|] == ' ';
      }
    }
  }

  lemma IndexOfIs(s: string, pat: string, i: nat)
    requires OccursAt(s, pat, i)
    requires forall j :: 0 <= j < i ==> !OccursAt(s, pat, j)
    ensures IndexOf(s, pat) == Some(i)
  {
  }

  lemma FromAfterSpace(lp: string, lf: string)
    requires StartsWith(lf, "from")
    ensures OccursAt(lp + (" " + lf), "from", |lp| + 1)
  {
    var ls := lp + (" " + lf);
    assert ls[|lp| + 1..|lp| + 5] == lf[..4];
  }

  lemma FromBeforeSpace(lp: string, lf: string, j: int)
    requires OccursAt(lp, "from", j)
    ensures OccursAt(lp + (" " + lf), "from", j) && j < |lp| + 1
  {
    OccursInPrefix(lp, " " + lf, "from", j);
  }

  /** In `P + " " + F` with F starting with `from`, the first `from` is F's own exactly when
      P holds none. */
  lemma FirstFromAt(lp: string, lf: string)
    requires StartsWith(lf, "from")
    ensures (forall j :: !OccursAt(lp, "from", j)) <==> IndexOf(lp + (" " + lf), "from") == Some(|lp| + 1)
  {
    FromAfterSpace(lp, lf);
    if forall j :: !OccursAt(lp, "from", j) {
      NoFromBefore(lp, lf);
      IndexOfIs(lp + (" " + lf), "from", |lp| + 1);
    } else {
      var j :| OccursAt(lp, "from", j);
      FromBeforeSpace(lp, lf, j);
    }
  }

  /** The cut of a statement `P + " " + F` at its first `from` leaves exactly F behind the count
      head when P holds no `from`, and something else otherwise. */
  lemma FirstCut(s: string, lp: string, lf: string, f: string)
    requires StartsWith(lf, "from")
    requires |lp| + 1 + |f| == |s| && s[|lp| + 1..] == f
    ensures var r := IndexOf(lp + (" " + lf), "from");
      (forall j :: !OccursAt(lp, "from", j)) <==>
      (r.Some? && r.value <= |s| && "select count(*) as ct " + s[r.value..] == CountHead + " " + f)
  {
    FirstFromAt(lp, lf);
    assert CountHead + " " + f == "select count(*) as ct " + f;
    var r := IndexOf(lp + (" " + lf), "from");
    if r.Some? && r.value <= |s| && "select count(*) as ct " + s[r.value..] == CountHead + " " + f {
      CountCutDetermined(s, r.value, f);
    }
  }

  /** Where the first lowered `from` of a statement sits decides the count as written. */
  lemma CountAsWrittenAt(sql: string)
    ensures IndexOf(Lower(sql), "from").None? ==> CountSQLAsWritten(sql).Err?
    ensures IndexOf(Lower(sql), "from").Some? ==>
      CountSQLAsWritten(sql) == Ok("select count(*) as ct " + sql[IndexOf(Lower(sql), "from").value..])
  {
  }

  /** The count text behind the head determines where the cut was made. */
  lemma CountCutDetermined(s: string, i: nat, f: string)
    requires i <= |s| && |f| < |s|
    requires "select count(*) as ct " + s[i..] == CountHead + " " + f
    ensures i == |s| - |f|
  {
    assert |"select count(*) as ct " + s[i..]| == 22 + |s| - i;
    assert |CountHead + " " + f| == 22 + |f|;
  }

  /** Behind a text and a space, a `from` section is cut at its own keyword exactly when the
      lower-cased text holds no `from`. */
  lemma CountTextAgrees(p: string, f: string)
    requires StartsWith(Lower(f), "from")
    ensures (forall j :: !OccursAt(Lower(p), "from", j)) <==>
      CountSQLAsWritten(p + " " + f) == Ok(CountHead + " " + f)
  {
    var s := p + " " + f;
    LowerSpaced(p, f);
    AppendRegroup3(Lower(p), " ", Lower(f));
    CountAsWrittenAt(s);
    assert s[|p| + 1..] == f;
    FirstCut(s, Lower(p), Lower(f), f);
  }

  /** The count statement as written agrees with the count built from the sections exactly
      when the keyword, the top and the projection hold no `from` in any letter case. */
  lemma CountSQLAsWrittenAgrees(q: Query)
    requires TidyQuery(q)
    ensures (forall j :: !OccursAt(Lower(ProjectionPart(q)), "from", j)) <==>
      CountSQLAsWritten(ShowSQL(q)) == Ok(CountSQL(q))
  {
    CountSQLKeepsFromClause(q);
    FromPartStarts(q);
    CountTextAgrees(ProjectionPart(q), FromPart(q));
  }

  /** The count does not depend on the keyword, the top or the projection. */
  lemma CountSQLIgnoresProjection(q: Query, sel: Option<seq<string>>, top: Option<string>, exec: bool)
    ensures CountSQL(q.(select := sel, top := top, exec := exec)) == CountSQL(q)
  {
    assert Parts(q.(select := sel, top := top, exec := exec))[3..] == Parts(q)[3..];
  }

  lemma NonEmptyBlanks(xs: seq<string>)
    requires forall k :: 0 <= k < |xs| ==> xs[k] == ""
    ensures NonEmpty(xs) == []
  {
  }

  lemma ProjectionOfOne(kw: string, p: seq<string>)
    requires |p| >= 3 && p[1] == "" && p[2] != ""
    ensures Join(" ", [kw] + NonEmpty(p[1..3])) == kw + " " + p[2]
  {
    assert p[1..3] == ["", p[2]];
    assert ["", p[2]][1..] == [p[2]];
    assert NonEmpty(p[1..3]) == [p[2]];
    assert ([kw] + [p[2]])[1..] == [p[2]];
  }

  lemma FromOfOne(p: seq<string>)
    requires |p| == 11 && p[4] != ""
    requires p[5] == "" && p[6] == "" && p[7] == "" && p[8] == "" && p[9] == "" && p[10] == ""
    ensures Join(" ", ["from"] + NonEmpty(p[4..])) == "from " + p[4]
  {
    assert forall k :: 5 <= k < |p| ==> p[k] == "";
    assert p[4..] == [p[4]] + p[5..];
    NonEmptyBlanks(p[5..]);
    assert NonEmpty(p[4..]) == [p[4]];
    assert (["from"] + [p[4]])[1..] == [p[4]];
  }

  lemma FromageLower()
    ensures Lower("select fromage from t") == "select fromage from t"
  {
    LowerKeeps("select fromage from t");
  }

  lemma FromageIndex()
    ensures IndexOf("select fromage from t", "from") == Some(7)
  {
    var sql := "select fromage from t";
    assert OccursAt(sql, "from", 7) by {
      assert sql[7..11] == "from";
    }
    forall j | 0 <= j < 7
      ensures !OccursAt(sql, "from", j)
    {
      assert sql[j..j + 4][0] == sql[j] != 'f';
    }
  }

  lemma FromageTexts()
    ensures "select" + " " + "fromage" + " " + ("from " + "t") == "select fromage from t"
    ensures CountHead + " " + ("from " + "t") == "select count(*) as ct from t"
  {
    assert "select" + " " + "fromage" + " " + ("from " + "t") == "select fromage from t" by {
      assert "select" + " " + "fromage" == "select fromage";
      assert "from " + "t" == "from t";
    }
    assert CountHead + " " + ("from " + "t") == "select count(*) as ct from t" by {
      assert "from " + "t" == "from t";
    }
  }

  lemma FromageCut()
    ensures "select fromage from t"[7..] == "fromage from t"
    ensures "select count(*) as ct " + "fromage from t" == "select count(*) as ct fromage from t"
  {
  }

  /** The as-written cut on `select fromage from t`. */
  lemma CountSQLAsWrittenOnFromage()
    ensures CountSQLAsWritten("select fromage from t") == Ok("select count(*) as ct fromage from t")
  {
    var sql := "select fromage from t";
    assert IndexOf(Lower(sql), "from") == Some(7) by {
      FromageLower();
      FromageIndex();
    }
    FromageCut();
  }

  /** `select fromage from t`: a materialized table projecting one column named `fromage`. */
  function FromageQuery(): Query
  {
    Fresh("t", Some(["fromage"]), true)
  }

  lemma FromageParts()
    ensures Parts(FromageQuery()) == ["select", "", "fromage", "from", "t", "", "", "", "", "", ""]
    ensures TidyQuery(FromageQuery())
  {
    assert Words(["fromage"]);
  }

  lemma FromageSplit()
    ensures ProjectionPart(FromageQuery()) == "select" + " " + "fromage"
    ensures FromPart(FromageQuery()) == "from " + "t"
  {
    FromageParts();
    var p := Parts(FromageQuery());
    ProjectionOfOne("select", p);
    FromOfOne(p);
  }

  /** A column whose name begins with `from` moves the cut into the projection: the as-written
      count keeps `fromage`, the corrected one does not. */
  lemma CountSQLFromInColumnName()
    ensures ShowSQL(FromageQuery()) == "select fromage from t"
    ensures CountSQLAsWritten(ShowSQL(FromageQuery())) == Ok("select count(*) as ct fromage from t")
    ensures CountSQL(FromageQuery()) == "select count(*) as ct from t"
  {
    FromageParts();
    CountSQLKeepsFromClause(FromageQuery());
    FromageSplit();
    FromageTexts();
    CountSQLAsWrittenOnFromage();
  }
}
