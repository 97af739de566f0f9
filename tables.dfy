/** The table objects: the shared reference counter, the `Table` whose builders fork a copy
    and change one clause of it, the grouping helpers `TableGroupby` / `TableContextby`, and
    the statement objects `TableUpdate`, `TableDelete` and `TablePivotBy`. The clause state of
    a table is the `Query` value of the Queries module; the methods here change it in place
    the way the setters do, and each builder is proved to produce the query the matching
    Queries function describes. */
module Tables {
  import opened Strings
  import opened Vectors
  import opened Queries

  // ---------------------------------------------------------------------------
  // The reference counter
  // ---------------------------------------------------------------------------

  /** `Counter`: how many live tables share one server-side object. It starts at one. */
  class Counter {
    var value: int

    constructor ()
      ensures value == 1
    {
      value := 1;
    }

    /** `inc`: one more holder; returns the new count. */
    method Inc() returns (v: int)
      modifies this
      ensures value == old(value) + 1 && v == value
    {
      value := value + 1;
      v := value;
    }

    /** `dec`: one holder fewer; returns the new count. */
    method Dec() returns (v: int)
      modifies this
      ensures value == old(value) - 1 && v == value
    {
      value := value - 1;
      v := value;
    }
  }

  // ---------------------------------------------------------------------------
  // Helpers shared by the setters
  // ---------------------------------------------------------------------------

  /** `_addWhereCond`: each condition is stringified and appended, in order. */
  method AppendConds(w: seq<string>, conds: Operands) returns (r: seq<string>)
    ensures r == w + Texts(conds)
  {
    match conds
    case OneOperand(x) =>
      r := w + [Str(x)];
    case OperandList(xs) =>
      r := w;
      for i := 0 to |xs|
        invariant |r| == |w| + i
        invariant r[..|w|] == w
        invariant forall j :: 0 <= j < i ==> r[|w| + j] == Str(xs[j])
      {
        r := r + [Str(xs[i])];
      }
  }

  /** `_setSort` / `_setCsort`: more than one column takes `desc` from its own flag or from a
      bare False; one column takes it only from a bare False. */
  method BuildSortKeys(keys: Operands, asc: Ascending) returns (r: Result<seq<string>>)
    ensures r == SortKeysAsWritten(keys, asc)
  {
    var cols := Texts(keys);
    ghost var texts := cols;
    if asc.Flags? && |asc.flags| != |cols| {
      return Err(SortLengthMismatch);
    }
    if |cols| > 1 {
      if asc.Flags? || !asc.asc {
        var tem: seq<string> := [];
        for i := 0 to |cols|
          invariant |tem| == i
          invariant forall j :: 0 <= j < i ==> tem[j] == cols[j] + (if DescendingAsWritten(asc, j, |cols|) then " desc" else "")
        {
          if DescendingAsWritten(asc, i, |cols|) {
            tem := tem + [cols[i] + " desc"];
          } else {
            tem := tem + [cols[i] + ""];
          }
        }
        cols := tem;
      } else {
        assert forall j :: 0 <= j < |cols| ==> cols[j] == cols[j] + "";
      }
    } else if |cols| == 1 && asc == Flag(false) {
      cols := [cols[0] + " desc"];
    } else if |cols| == 1 {
      assert cols[0] == cols[0] + "";
    }
    assert |cols| == |texts|;
    assert forall j :: 0 <= j < |cols| ==> cols[j] == texts[j] + (if DescendingAsWritten(asc, j, |texts|) then " desc" else "");
    assert cols == SortKeysAsWritten(keys, asc).value;
    r := Ok(cols);
  }

  /** The prefix that marks a generated temporary table. */
  const TempPrefix: string := "TMP_TBL_"

  /** Whether the release that drops the count to zero sends a command for `name`: the session
      is open, the name is not an expression (no parenthesis), and it is a temporary. */
  predicate SendsUndef(name: string, sessionOpen: bool)
  {
    sessionOpen && '(' !in name && ')' !in name && Contains(name, TempPrefix)
  }

  /** The release command: the address decides between the two forms. */
  function UndefCommand(name: string, addr: Option<int>): (r: string)
    ensures StartsWith(r, "undef('" + name + "'") && r[|r| - 1] == ')'
  {
    var head := "undef('" + name + "'";
    var tail := if addr.None? || addr.value < 0 then ")" else ", VAR)";
    StartsWithConcat(head, tail);
    head + tail
  }

  lemma IsTemporaryByIndex(name: string)
    ensures IndexOf(name, TempPrefix).Some? <==> Contains(name, TempPrefix)
  {
    var k := IndexOf(name, TempPrefix);
    if k.Some? {
      assert OccursAt(name, TempPrefix, k.value);
    }
  }

  // ---------------------------------------------------------------------------
  // Table
  // ---------------------------------------------------------------------------

  /** `Table`: the clause state, the counter it shares with its copies, and the address the
      upload returned. `origin` / `originAddr` name the server object the counter guards. */
  class Table {
    var q: Query
    const needGC: bool
    var ref: Counter
    var objAddr: Option<int>
    var origin: string
    var originAddr: Option<int>

    /** A table bound to `name`, projecting its schema's columns when they are known. */
    constructor (name: string, columns: Option<seq<string>>, materialized: bool, needGC: bool, objAddr: Option<int>)
      ensures q == Fresh(name, columns, materialized) && this.needGC == needGC && this.objAddr == objAddr
      ensures fresh(ref) && ref.value == 1
      ensures origin == name && originAddr == objAddr
    {
      q := Fresh(name, columns, materialized);
      this.needGC := needGC;
      ref := new Counter();
      this.objAddr := objAddr;
      origin := name;
      originAddr := objAddr;
    }

    /** The step a fork adds to the shared count. */
    function Step(): int
      reads this
    {
      if needGC then 1 else 0
    }

    /** t belongs to the same server object as this table and shares its counter. */
    predicate Shares(t: Table)
      reads this, t
    {
      t.needGC == needGC && t.origin == origin && t.originAddr == originAddr && (needGC ==> t.ref == ref)
    }

    /** `__copy__`: the clauses are copied, the join sources and the update flag are not; with
        garbage collection on, the copy shares the counter and raises it. */
    method Copy() returns (t: Table)
      modifies ref
      ensures fresh(t) && Shares(t) && t.q == CopyOf(q) && t.objAddr.None?
      ensures !needGC ==> fresh(t.ref) && t.ref.value == 1
      ensures ref.value == old(ref.value) + Step()
    {
      t := new Table(q.name, None, q.materialized, needGC, None);
      t.q := CopyOf(q);
      t.origin := origin;
      t.originAddr := originAddr;
      if needGC {
        t.ref := ref;
        var n := ref.Inc();
      }
    }

    // The setters

    /** `_setSelect` */
    method SetSelect(cols: Names)
      modifies this
      ensures q == old(q).(select := Some(Items(cols)))
      ensures ref == old(ref) && objAddr == old(objAddr) && origin == old(origin) && originAddr == old(originAddr)
    {
      q := q.(select := Some(Items(cols)));
    }

    /** `_addWhereCond` */
    method AddWhere(conds: Operands)
      modifies this
      ensures q == old(q).(where := Some((if old(q).where.Some? then old(q).where.value else []) + Texts(conds)))
      ensures ref == old(ref) && objAddr == old(objAddr) && origin == old(origin) && originAddr == old(originAddr)
    {
      var w := AppendConds(if q.where.Some? then q.where.value else [], conds);
      q := q.(where := Some(w));
    }

    /** `_setSort`: the stringified columns are stored before the flags are checked, so a length
        mismatch leaves them in place and returns the error. */
    method SetSort(keys: Operands, asc: Ascending) returns (err: Option<Error>)
      modifies this
      ensures SortKeysAsWritten(keys, asc).Err? ==>
        err == Some(SortKeysAsWritten(keys, asc).error) && q == old(q).(sort := Some(Texts(keys)))
      ensures SortKeysAsWritten(keys, asc).Ok? ==> err.None? && q == old(q).(sort := Some(SortKeysAsWritten(keys, asc).value))
      ensures ref == old(ref) && objAddr == old(objAddr) && origin == old(origin) && originAddr == old(originAddr)
    {
      q := q.(sort := Some(Texts(keys)));
      var ks := BuildSortKeys(keys, asc);
      if ks.Err? {
        return Some(ks.error);
      }
      q := q.(sort := Some(ks.value));
      err := None;
    }

    /** `_setCsort` */
    method SetCsort(keys: Operands, asc: Ascending) returns (err: Option<Error>)
      modifies this
      ensures SortKeysAsWritten(keys, asc).Err? ==>
        err == Some(SortKeysAsWritten(keys, asc).error) && q == old(q).(csort := Some(Texts(keys)))
      ensures SortKeysAsWritten(keys, asc).Ok? ==> err.None? && q == old(q).(csort := Some(SortKeysAsWritten(keys, asc).value))
      ensures ref == old(ref) && objAddr == old(objAddr) && origin == old(origin) && originAddr == old(originAddr)
    {
      q := q.(csort := Some(Texts(keys)));
      var ks := BuildSortKeys(keys, asc);
      if ks.Err? {
        return Some(ks.error);
      }
      q := q.(csort := Some(ks.value));
      err := None;
    }

    /** `_setTop` */
    method SetTop(n: int)
      modifies this
      ensures q == old(q).(top := Some(IntToString(n)))
      ensures ref == old(ref) && objAddr == old(objAddr) && origin == old(origin) && originAddr == old(originAddr)
    {
      q := q.(top := Some(IntToString(n)));
    }

    /** `_setLimit` */
    method SetLimit(n: Nums)
      modifies this
      ensures q == old(q).(limit := Some(NumTexts(n)))
      ensures ref == old(ref) && objAddr == old(objAddr) && origin == old(origin) && originAddr == old(originAddr)
    {
      q := q.(limit := Some(NumTexts(n)));
    }

    /** `_setHaving` */
    method SetHaving(h: string)
      modifies this
      ensures q == old(q).(having := Some(h))
      ensures ref == old(ref) && objAddr == old(objAddr) && origin == old(origin) && originAddr == old(originAddr)
    {
      q := q.(having := Some(h));
    }

    /** `_setGroupby`: refused when a context-by is present. */
    method SetGroupBy(cols: seq<string>) returns (err: Option<Error>)
      modifies this
      ensures old(q).grouping.ContextBy? ==> err == Some(GroupingConflict) && q == old(q)
      ensures !old(q).grouping.ContextBy? ==> err.None? && q == old(q).(grouping := Grouping.GroupBy(cols))
      ensures ref == old(ref) && objAddr == old(objAddr) && origin == old(origin) && originAddr == old(originAddr)
    {
      if q.grouping.ContextBy? {
        return Some(GroupingConflict);
      }
      q := q.(grouping := Grouping.GroupBy(cols));
      err := None;
    }

    /** `_setContextby`: refused when a group-by is present. */
    method SetContextBy(cols: seq<string>) returns (err: Option<Error>)
      modifies this
      ensures old(q).grouping.GroupBy? ==> err == Some(GroupingConflict) && q == old(q)
      ensures !old(q).grouping.GroupBy? ==> err.None? && q == old(q).(grouping := Grouping.ContextBy(cols))
      ensures ref == old(ref) && objAddr == old(objAddr) && origin == old(origin) && originAddr == old(originAddr)
    {
      if q.grouping.GroupBy? {
        return Some(GroupingConflict);
      }
      q := q.(grouping := Grouping.ContextBy(cols));
      err := None;
    }

    // The builders: each forks a copy, changes it, and leaves this table as it was

    /** `select` */
    method Select(cols: Names) returns (t: Table)
      modifies ref
      ensures fresh(t) && Shares(t) && ref.value == old(ref.value) + Step()
      ensures t.q == Queries.Select(q, cols)
    {
      t := Copy();
      t.SetSelect(cols);
      if !q.materialized {
        t.q := t.q.(name := "(" + Queries.ShowSQL(q) + ")");
      }
      t.q := t.q.(materialized := false);
    }

    /** `exec` */
    method Exec(cols: Names) returns (t: Table)
      modifies ref
      ensures fresh(t) && Shares(t) && ref.value == old(ref.value) + Step()
      ensures t.q == Queries.Exec(q, cols)
    {
      t := Copy();
      t.SetSelect(cols);
      t.q := t.q.(exec := true);
      if !q.materialized {
        t.q := t.q.(name := "(" + Queries.ShowSQL(q) + ")");
      }
      t.q := t.q.(materialized := false);
    }

    /** `where` */
    method Where(conds: Operands) returns (t: Table)
      modifies ref
      ensures fresh(t) && Shares(t) && ref.value == old(ref.value) + Step()
      ensures t.q == Queries.Where(q, conds)
    {
      t := Copy();
      t.AddWhere(conds);
    }

    /** `sort`: the copy is made before the keys are checked, so a refused sort still counts it. */
    method Sort(keys: Operands, asc: Ascending) returns (r: Result<Table>)
      modifies ref
      ensures ref.value == old(ref.value) + Step()
      ensures r.Err? <==> Queries.Sort(q, keys, asc).Err?
      ensures r.Err? ==> r.error == Queries.Sort(q, keys, asc).error
      ensures r.Ok? ==> fresh(r.value) && Shares(r.value) && r.value.q == Queries.Sort(q, keys, asc).value
    {
      var t := Copy();
      var err := t.SetSort(keys, asc);
      if err.Some? {
        return Err(err.value);
      }
      r := Ok(t);
    }

    /** `csort` */
    method Csort(keys: Operands, asc: Ascending) returns (r: Result<Table>)
      modifies ref
      ensures ref.value == old(ref.value) + Step()
      ensures r.Err? <==> Queries.Csort(q, keys, asc).Err?
      ensures r.Err? ==> r.error == Queries.Csort(q, keys, asc).error
      ensures r.Ok? ==> fresh(r.value) && Shares(r.value) && r.value.q == Queries.Csort(q, keys, asc).value
    {
      var t := Copy();
      var err := t.SetCsort(keys, asc);
      if err.Some? {
        return Err(err.value);
      }
      r := Ok(t);
    }

    /** `top` */
    method Top(n: int) returns (t: Table)
      modifies ref
      ensures fresh(t) && Shares(t) && ref.value == old(ref.value) + Step()
      ensures t.q == Queries.Top(q, n)
    {
      t := Copy();
      t.SetTop(n);
    }

    /** `limit` */
    method Limit(n: Nums) returns (t: Table)
      modifies ref
      ensures fresh(t) && Shares(t) && ref.value == old(ref.value) + Step()
      ensures t.q == Queries.Limit(q, n)
    {
      t := Copy();
      t.SetLimit(n);
    }

    /** `groupby`: the grouping helper over a copy that carries the group-by. */
    method GroupBy(cols: Names) returns (r: Result<TableGroupby>)
      modifies ref
      ensures ref.value == old(ref.value) + Step()
      ensures r.Err? <==> WithGroupBy(q, cols).Err?
      ensures r.Err? ==> r.error == GroupingConflict
      ensures r.Ok? ==> fresh(r.value) && fresh(r.value.t) && Shares(r.value.t)
      ensures r.Ok? ==> r.value.t.q == WithGroupBy(q, cols).value && r.value.cols == Items(cols) && r.value.having.None?
    {
      var t := Copy();
      var g := new TableGroupby(t, cols, None);
      var err := t.SetGroupBy(g.cols);
      if err.Some? {
        return Err(err.value);
      }
      r := Ok(g);
    }

    /** `contextby`: the copy keeps the update flag of this table. */
    method ContextBy(cols: Names) returns (r: Result<TableContextby>)
      modifies ref
      ensures ref.value == old(ref.value) + Step()
      ensures r.Err? <==> WithContextBy(q, cols).Err?
      ensures r.Err? ==> r.error == GroupingConflict
      ensures r.Ok? ==> fresh(r.value) && fresh(r.value.t) && Shares(r.value.t)
      ensures r.Ok? ==> r.value.t.q == WithContextBy(q, cols).value && r.value.cols == Items(cols) && r.value.having.None?
    {
      var t := Copy();
      t.q := t.q.(mergeForUpdate := q.mergeForUpdate);
      var c := new TableContextby(t, cols, None);
      var err := t.SetContextBy(c.cols);
      if err.Some? {
        return Err(err.value);
      }
      r := Ok(c);
    }

    /** The copy every join starts from: both source names remembered, the join expression
        as its table and `*` as its projection. */
    method JoinCopy(rightName: string, name: string) returns (t: Table)
      modifies ref
      ensures fresh(t) && Shares(t) && ref.value == old(ref.value) + Step()
      ensures t.q == CopyOf(q).(left := Some(q.name), right := Some(rightName), name := name, select := Some(["*"]))
    {
      var leftName := q.name;
      t := Copy();
      ghost var count := ref.value;
      t.q := t.q.(left := Some(leftName), right := Some(rightName), name := name);
      t.SetSelect(OneName("*"));
      assert Shares(t) && ref.value == count;
    }

    /** `merge`: the join name is worked out first, so a refused name forks nothing; the
        projections are read after the copy, so an unset one fails with the copy counted. */
    method Merge(right: Table, how: string, k: JoinKeys, sort: bool, forUpdate: bool) returns (r: Result<Table>)
      modifies ref
      ensures r.Err? <==> Queries.Merge(q, right.q, how, k, sort, forUpdate).Err?
      ensures r.Err? ==> r.error == Queries.Merge(q, right.q, how, k, sort, forUpdate).error
      ensures r.Err? ==> ref.value == old(ref.value) + (if MergeName(SourceName(q), SourceName(right.q), how, k, sort).Ok? then Step() else 0)
      ensures r.Ok? ==> fresh(r.value) && Shares(r.value) && ref.value == old(ref.value) + Step()
      ensures r.Ok? ==> r.value.q == Queries.Merge(q, right.q, how, k, sort, forUpdate).value
    {
      MergeOk(q, right.q, how, k, sort, forUpdate);
      var n := MergeName(SourceName(q), SourceName(right.q), how, k, sort);
      if n.Err? {
        return Err(n.error);
      }
      var unset := q.select.None? || right.q.select.None?;
      var t := JoinCopy(right.q.name, n.value);
      if unset {
        return Err(SelectUnset);
      }
      ghost var count := ref.value;
      if forUpdate {
        t.q := t.q.(mergeForUpdate := true);
      }
      t.q := t.q.(materialized := false);
      assert Shares(t) && ref.value == count;
      r := Ok(t);
    }

    /** `merge_asof`: as `merge`, a refused name forks nothing and an unset projection fails
        after the copy. */
    method MergeAsof(right: Table, k: JoinKeys) returns (r: Result<Table>)
      modifies ref
      ensures r.Err? <==> Queries.MergeAsof(q, right.q, k).Err?
      ensures r.Err? ==> r.error == Queries.MergeAsof(q, right.q, k).error
      ensures r.Err? ==> ref.value == old(ref.value) + (if ResolveKeys(k).Ok? then Step() else 0)
      ensures r.Ok? ==> fresh(r.value) && Shares(r.value) && ref.value == old(ref.value) + Step()
      ensures r.Ok? ==> r.value.q == Queries.MergeAsof(q, right.q, k).value
    {
      MergeAsofOk(q, right.q, k);
      var n := AsofName(SourceName(q), SourceName(right.q), k);
      if n.Err? {
        return Err(n.error);
      }
      var unset := q.select.None? || right.q.select.None?;
      var t := JoinCopy(right.q.name, n.value);
      if unset {
        return Err(SelectUnset);
      }
      ghost var count := ref.value;
      t.q := t.q.(materialized := false);
      assert Shares(t) && ref.value == count;
      r := Ok(t);
    }

    /** `merge_window` */
    method MergeWindow(right: Table, lo: int, hi: int, aggs: Names, k: JoinKeys, prevailing: bool) returns (r: Result<Table>)
      modifies ref
      ensures r.Err? <==> Queries.MergeWindow(q, right.q, lo, hi, aggs, k, prevailing).Err?
      ensures r.Err? ==> r.error == Queries.MergeWindow(q, right.q, lo, hi, aggs, k, prevailing).error && ref.value == old(ref.value)
      ensures r.Ok? ==> fresh(r.value) && Shares(r.value) && ref.value == old(ref.value) + Step()
      ensures r.Ok? ==> r.value.q == Queries.MergeWindow(q, right.q, lo, hi, aggs, k, prevailing).value
    {
      MergeWindowOk(q, right.q, lo, hi, aggs, k, prevailing);
      var n := WindowName(q.name, right.q.name, lo, hi, aggs, k, prevailing);
      if n.Err? {
        return Err(n.error);
      }
      var t := JoinCopy(right.q.name, n.value);
      r := Ok(t);
    }

    /** `merge_cross` */
    method MergeCross(right: Table) returns (t: Table)
      modifies ref
      ensures fresh(t) && Shares(t) && ref.value == old(ref.value) + Step()
      ensures t.q == Queries.MergeCross(q, right.q)
    {
      t := JoinCopy(right.q.name, "cj(" + q.name + "," + right.q.name + ")");
    }

    /** `pivotby` */
    method PivotBy(row: string, column: string, value: Option<string>, agg: Option<string>) returns (p: TablePivotBy)
      modifies ref
      ensures fresh(p) && fresh(p.t) && Shares(p.t) && ref.value == old(ref.value) + Step()
      ensures p.t.q == CopyOf(q) && p.row == row && p.column == column && p.value == value && p.agg == agg
    {
      var t := Copy();
      p := new TablePivotBy(t, row, column, value, agg);
    }

    /** `delete` */
    method Delete() returns (d: TableDelete)
      modifies ref
      ensures fresh(d) && fresh(d.t) && Shares(d.t) && ref.value == old(ref.value) + Step()
      ensures d.t.q == CopyOf(q) && d.where.None?
    {
      var t := Copy();
      d := new TableDelete(t);
    }

    /** `update` as written: the statement is built over a copy, which has lost the join
        sources; the context-by and having probes never find their attribute. */
    method UpdateAsWritten(cols: seq<string>, vals: seq<string>) returns (u: TableUpdate)
      modifies ref
      ensures fresh(u) && fresh(u.t) && Shares(u.t) && ref.value == old(ref.value) + Step()
      ensures u.t.q == CopyOf(q) && u.cols == cols && u.vals == vals
      ensures u.contextby.None? && u.having.None? && u.where.None? && u.mergeForUpdate == q.mergeForUpdate
    {
      var t := Copy();
      u := new TableUpdate(t, cols, vals, None, None);
      u.SetMergeForUpdate(q.mergeForUpdate);
    }

    /** `update` with the join sources kept on the copy, so that an update driven by a join
        can name the table it updates. */
    method Update(cols: seq<string>, vals: seq<string>) returns (u: TableUpdate)
      modifies ref
      ensures fresh(u) && fresh(u.t) && Shares(u.t) && ref.value == old(ref.value) + Step()
      ensures u.t.q == CopyOf(q).(left := q.left, right := q.right) && u.cols == cols && u.vals == vals
      ensures u.contextby.None? && u.having.None? && u.where.None? && u.mergeForUpdate == q.mergeForUpdate
    {
      var leftName, rightName := q.left, q.right;
      var t := Copy();
      t.q := t.q.(left := leftName, right := rightName);
      u := new TableUpdate(t, cols, vals, None, None);
      u.SetMergeForUpdate(q.mergeForUpdate);
    }

    /** `__del__` as written: the last holder decides with its own name and address. */
    method ReleaseAsWritten(sessionOpen: bool) returns (cmd: Option<string>)
      modifies ref
      ensures ref.value == old(ref.value) - Step()
      ensures cmd.Some? <==> needGC && old(ref.value) == 1 && SendsUndef(q.name, sessionOpen)
      ensures cmd.Some? ==> cmd.value == UndefCommand(q.name, objAddr)
    {
      cmd := None;
      if needGC {
        var v := ref.Dec();
        if v == 0 {
          if '(' in q.name || ')' in q.name {
            return;
          }
          IsTemporaryByIndex(q.name);
          if sessionOpen && IndexOf(q.name, TempPrefix).Some? {
            cmd := Some(UndefCommand(q.name, objAddr));
          }
        }
      }
    }

    /** `__del__` deciding with the name and address of the object the counter guards, so the
        object is released whichever holder goes last. */
    method Release(sessionOpen: bool) returns (cmd: Option<string>)
      modifies ref
      ensures ref.value == old(ref.value) - Step()
      ensures cmd.Some? <==> needGC && old(ref.value) == 1 && SendsUndef(origin, sessionOpen)
      ensures cmd.Some? ==> cmd.value == UndefCommand(origin, originAddr)
    {
      cmd := None;
      if needGC {
        var v := ref.Dec();
        if v == 0 {
          if '(' in origin || ')' in origin {
            return;
          }
          IsTemporaryByIndex(origin);
          if sessionOpen && IndexOf(origin, TempPrefix).Some? {
            cmd := Some(UndefCommand(origin, originAddr));
          }
        }
      }
    }
  }

  // ---------------------------------------------------------------------------
  // Releasing every holder of one counter
  // ---------------------------------------------------------------------------

  /** Every holder of one counter released in turn, the count being the number of holders:
      the count ends at zero and exactly one command is sent, by the last release, when the
      guarded object is a temporary and the session is open. */
  method ReleaseAll(ts: seq<Table>, sessionOpen: bool) returns (cmds: seq<string>)
    requires |ts| > 0 && ts[0].needGC && ts[0].ref.value == |ts|
    requires forall i :: 0 <= i < |ts| ==> ts[0].Shares(ts[i])
    modifies ts[0].ref
    ensures ts[0].ref.value == 0
    ensures cmds == (if SendsUndef(ts[0].origin, sessionOpen) then [UndefCommand(ts[0].origin, ts[0].originAddr)] else [])
  {
    var c := ts[0].ref;
    cmds := [];
    for i := 0 to |ts|
      invariant c.value == |ts| - i
      invariant i < |ts| ==> cmds == []
      invariant i == |ts| ==> cmds == (if SendsUndef(ts[0].origin, sessionOpen) then [UndefCommand(ts[0].origin, ts[0].originAddr)] else [])
    {
      assert ts[0].Shares(ts[i]);
      var cmd := ts[i].Release(sessionOpen);
      if cmd.Some? {
        cmds := cmds + [cmd.value];
      }
    }
  }

  /** Two holders of one counter released as written, the first then the second: the
      second release alone can send, and it decides by its own name. */
  method ReleaseTwoAsWritten(first: Table, second: Table, sessionOpen: bool) returns (cmds: seq<string>)
    requires first.needGC && first.Shares(second) && first.ref.value == 2
    modifies first.ref
    ensures first.ref.value == 0
    ensures !SendsUndef(second.q.name, sessionOpen) ==> cmds == []
    ensures SendsUndef(second.q.name, sessionOpen) ==> cmds == [UndefCommand(second.q.name, second.objAddr)]
  {
    var c1 := first.ReleaseAsWritten(sessionOpen);
    assert Sent(c1) == [];
    var c2 := second.ReleaseAsWritten(sessionOpen);
    cmds := Sent(c1) + Sent(c2);
  }

  /** A selection over a table that is not materialized is named by a parenthesised query,
      which never qualifies for the release command. */
  lemma SelectionNeverSends(q: Query, cols: Names)
    requires !q.materialized
    ensures !SendsUndef(Queries.Select(q, cols).name, true)
  {
    assert Queries.Select(q, cols).name[0] == '(';
  }

  /** The leak of the release as written: a temporary that is not materialized, and a
      selection over it, released base first. The count reaches zero at the selection, whose
      name is a parenthesised query, so no command is ever sent: a temporary stays behind. */
  method ReleaseLeakAsWritten(name: string, columns: Option<seq<string>>, cols: Names) returns (cmds: seq<string>)
    ensures cmds == []
  {
    var base := new Table(name, columns, false, true, None);
    var derived := base.Select(cols);
    SelectionNeverSends(base.q, cols);
    cmds := ReleaseTwoAsWritten(base, derived, true);
  }

  /** The same two releases deciding by the guarded object: for a temporary the command is
      sent once, by the second release. */
  method ReleaseLeakCorrected(name: string, columns: Option<seq<string>>, cols: Names) returns (cmds: seq<string>)
    ensures cmds == (if SendsUndef(name, true) then [UndefCommand(name, None)] else [])
  {
    var base := new Table(name, columns, false, true, None);
    var derived := base.Select(cols);
    assert base.Shares(derived) && base.ref.value == 2;
    cmds := ReleaseAll([base, derived], true);
  }

  /** The commands a release sent, as a list. */
  function Sent(cmd: Option<string>): seq<string>
  {
    if cmd.Some? then [cmd.value] else []
  }

  /** A generated temporary name qualifies for the release command. */
  lemma TemporaryNameSends()
    ensures SendsUndef("TMP_TBL_1", true)
  {
    assert OccursAt("TMP_TBL_1", TempPrefix, 0);
  }

  // ---------------------------------------------------------------------------
  // The grouping helpers
  // ---------------------------------------------------------------------------

  /** `TableGroupby`: a grouped table, its grouping columns and the having expression. */
  class TableGroupby {
    const t: Table
    const cols: seq<string>
    var having: Option<string>
    var index: nat

    constructor (t: Table, cols: Names, having: Option<string>)
      ensures this.t == t && this.cols == Items(cols) && this.having == having && index == 0
    {
      this.t := t;
      this.cols := Items(cols);
      this.having := having;
      index := 0;
    }

    /** `__iter__` */
    method Start()
      modifies this
      ensures index == 0 && having == old(having)
    {
      index := 0;
    }

    /** `next`: the next grouping column, None where iteration stops. */
    method Next() returns (c: Option<string>)
      modifies this
      ensures old(index) < |cols| ==> c == Some(cols[old(index)]) && index == old(index) + 1
      ensures old(index) >= |cols| ==> c.None? && index == old(index)
      ensures having == old(having)
    {
      if index < |cols| {
        c := Some(cols[index]);
        index := index + 1;
      } else {
        c := None;
      }
    }

    /** `','.join(groupby)`: iterating the helper yields its columns in order. */
    method Columns() returns (s: string)
      modifies this
      ensures s == Join(",", cols)
      ensures having == old(having)
    {
      Start();
      s := "";
      while true
        invariant index <= |cols|
        invariant s == Join(",", cols[..index])
        invariant having == old(having)
        decreases |cols| - index
      {
        var c := Next();
        if c.None? {
          break;
        }
        if index == 1 {
          s := c.value;
        } else {
          JoinSnoc(",", cols[..index - 1], c.value);
          assert cols[..index - 1] + [c.value] == cols[..index];
          s := s + "," + c.value;
        }
      }
      assert cols[..index] == cols;
    }

    /** `sort`: a new helper over a sorted copy, with the same columns and having. */
    method Sort(keys: Operands, asc: Ascending) returns (r: Result<TableGroupby>)
      modifies t.ref
      ensures t.ref.value == old(t.ref.value) + t.Step()
      ensures r.Err? <==> Queries.Sort(t.q, keys, asc).Err?
      ensures r.Ok? ==> fresh(r.value) && r.value.t.q == Queries.Sort(t.q, keys, asc).value
      ensures r.Ok? ==> r.value.cols == cols && r.value.having == having
    {
      var s := t.Sort(keys, asc);
      if s.Err? {
        return Err(s.error);
      }
      var g := new TableGroupby(s.value, NameList(cols), having);
      r := Ok(g);
    }

    /** `csort` */
    method Csort(keys: Operands, asc: Ascending) returns (r: Result<TableGroupby>)
      modifies t.ref
      ensures t.ref.value == old(t.ref.value) + t.Step()
      ensures r.Err? <==> Queries.Csort(t.q, keys, asc).Err?
      ensures r.Ok? ==> fresh(r.value) && r.value.t.q == Queries.Csort(t.q, keys, asc).value
      ensures r.Ok? ==> r.value.cols == cols && r.value.having == having
    {
      var s := t.Csort(keys, asc);
      if s.Err? {
        return Err(s.error);
      }
      var g := new TableGroupby(s.value, NameList(cols), having);
      r := Ok(g);
    }

    /** `having`: remembered by the helper and set on a copy of the table, which is returned. */
    method Having(expr: string) returns (h: Table)
      modifies this, t.ref
      ensures having == Some(expr) && index == old(index)
      ensures fresh(h) && t.Shares(h) && t.ref.value == old(t.ref.value) + t.Step()
      ensures h.q == Queries.Having(t.q, expr)
    {
      h := t.Copy();
      having := Some(expr);
      h.SetHaving(expr);
    }

    /** `agg`: the aggregated projection selected from the grouped table. */
    method Agg(spec: AggFuncs) returns (r: Result<Table>)
      modifies t.ref
      ensures r.Err? <==> GroupAgg(t.q, spec).Err?
      ensures r.Err? ==> r.error == GroupAgg(t.q, spec).error && t.ref.value == old(t.ref.value)
      ensures r.Ok? ==> fresh(r.value) && r.value.q == GroupAgg(t.q, spec).value
      ensures r.Ok? ==> t.ref.value == old(t.ref.value) + t.Step()
    {
      var cols := AggColumns(t.q.select, spec);
      if cols.Err? {
        return Err(cols.error);
      }
      var s := t.Select(NameList(cols.value));
      r := Ok(s);
    }

    /** `agg2` */
    method Agg2(funcs: Names, pairs: Pairs) returns (r: Result<Table>)
      modifies t.ref
      ensures r.Err? <==> GroupAgg2(t.q, funcs, pairs).Err?
      ensures r.Err? ==> r.error == GroupAgg2(t.q, funcs, pairs).error && t.ref.value == old(t.ref.value)
      ensures r.Ok? ==> fresh(r.value) && r.value.q == GroupAgg2(t.q, funcs, pairs).value
      ensures r.Ok? ==> t.ref.value == old(t.ref.value) + t.Step()
    {
      var cols := Agg2Columns(funcs, pairs);
      if cols.Err? {
        return Err(cols.error);
      }
      if cols.value != [] {
        var s := t.Select(NameList(cols.value));
        return Ok(s);
      }
      if t.q.select.None? {
        return Err(SelectUnset);
      }
      var s := t.Select(NameList(t.q.select.value));
      r := Ok(s);
    }
  }

  /** `TableContextby`: a table with a context-by, its columns and the having expression. */
  class TableContextby {
    const t: Table
    const cols: seq<string>
    var having: Option<string>
    var index: nat

    constructor (t: Table, cols: Names, having: Option<string>)
      ensures this.t == t && this.cols == Items(cols) && this.having == having && index == 0
    {
      this.t := t;
      this.cols := Items(cols);
      this.having := having;
      index := 0;
    }

    /** `__iter__` */
    method Start()
      modifies this
      ensures index == 0 && having == old(having)
    {
      index := 0;
    }

    /** `next` */
    method Next() returns (c: Option<string>)
      modifies this
      ensures old(index) < |cols| ==> c == Some(cols[old(index)]) && index == old(index) + 1
      ensures old(index) >= |cols| ==> c.None? && index == old(index)
      ensures having == old(having)
    {
      if index < |cols| {
        c := Some(cols[index]);
        index := index + 1;
      } else {
        c := None;
      }
    }

    /** `','.join(contextby)` */
    method Columns() returns (s: string)
      modifies this
      ensures s == Join(",", cols)
      ensures having == old(having)
    {
      Start();
      s := "";
      while true
        invariant index <= |cols|
        invariant s == Join(",", cols[..index])
        invariant having == old(having)
        decreases |cols| - index
      {
        var c := Next();
        if c.None? {
          break;
        }
        if index == 1 {
          s := c.value;
        } else {
          JoinSnoc(",", cols[..index - 1], c.value);
          assert cols[..index - 1] + [c.value] == cols[..index];
          s := s + "," + c.value;
        }
      }
      assert cols[..index] == cols;
    }

    /** `sort`: unlike the group-by helper, the new helper starts without a having. */
    method Sort(keys: Operands, asc: Ascending) returns (r: Result<TableContextby>)
      modifies t.ref
      ensures t.ref.value == old(t.ref.value) + t.Step()
      ensures r.Err? <==> Queries.Sort(t.q, keys, asc).Err?
      ensures r.Ok? ==> fresh(r.value) && r.value.t.q == Queries.Sort(t.q, keys, asc).value
      ensures r.Ok? ==> r.value.cols == cols && r.value.having.None?
    {
      var s := t.Sort(keys, asc);
      if s.Err? {
        return Err(s.error);
      }
      var c := new TableContextby(s.value, NameList(cols), None);
      r := Ok(c);
    }

    /** `csort` */
    method Csort(keys: Operands, asc: Ascending) returns (r: Result<TableContextby>)
      modifies t.ref
      ensures t.ref.value == old(t.ref.value) + t.Step()
      ensures r.Err? <==> Queries.Csort(t.q, keys, asc).Err?
      ensures r.Ok? ==> fresh(r.value) && r.value.t.q == Queries.Csort(t.q, keys, asc).value
      ensures r.Ok? ==> r.value.cols == cols && r.value.having.None?
    {
      var s := t.Csort(keys, asc);
      if s.Err? {
        return Err(s.error);
      }
      var c := new TableContextby(s.value, NameList(cols), None);
      r := Ok(c);
    }

    /** `having` */
    method Having(expr: string) returns (h: Table)
      modifies this, t.ref
      ensures having == Some(expr) && index == old(index)
      ensures fresh(h) && t.Shares(h) && t.ref.value == old(t.ref.value) + t.Step()
      ensures h.q == Queries.Having(t.q, expr)
    {
      h := t.Copy();
      having := Some(expr);
      h.SetHaving(expr);
    }

    /** `top`: passed on to the table. */
    method Top(n: int) returns (r: Table)
      modifies t.ref
      ensures fresh(r) && t.Shares(r) && t.ref.value == old(t.ref.value) + t.Step()
      ensures r.q == Queries.Top(t.q, n)
    {
      r := t.Top(n);
    }

    /** `limit`: passed on to the table. */
    method Limit(n: Nums) returns (r: Table)
      modifies t.ref
      ensures fresh(r) && t.Shares(r) && t.ref.value == old(t.ref.value) + t.Step()
      ensures r.q == Queries.Limit(t.q, n)
    {
      r := t.Limit(n);
    }

    /** `agg`: the grouping columns, then the aggregates of the other columns. */
    method Agg(spec: AggFuncs) returns (r: Result<Table>)
      modifies t.ref
      ensures r.Err? <==> ContextAgg(t.q, cols, spec).Err?
      ensures r.Err? ==> t.ref.value == old(t.ref.value)
      ensures r.Ok? ==> fresh(r.value) && r.value.q == ContextAgg(t.q, cols, spec).value
      ensures r.Ok? ==> t.ref.value == old(t.ref.value) + t.Step()
    {
      var sel := ContextAggColumns(t.q.select, cols, spec);
      if sel.Err? {
        return Err(sel.error);
      }
      var s := t.Select(NameList(sel.value));
      r := Ok(s);
    }

    /** `agg2`: the computed columns are appended to the table's own projection in place, and
        that projection is selected. */
    method Agg2(funcs: Names, pairs: Pairs) returns (r: Result<Table>)
      modifies t, t.ref
      ensures r.Err? <==> ContextAgg2(old(t.q), funcs, pairs).Err?
      ensures r.Err? ==> t.q == old(t.q) && t.ref.value == old(t.ref.value)
      ensures r.Ok? ==> t.q == ContextAgg2(old(t.q), funcs, pairs).value.0
      ensures r.Ok? ==> fresh(r.value) && r.value.q == ContextAgg2(old(t.q), funcs, pairs).value.1
      ensures r.Ok? ==> t.ref == old(t.ref) && t.ref.value == old(t.ref.value) + t.Step()
    {
      var c := ContextAgg2(t.q, funcs, pairs);
      if c.Err? {
        return Err(c.error);
      }
      t.q := c.value.0;
      var s := t.Select(NameList(t.q.select.value));
      r := Ok(s);
    }

    /** `update`: the statement is built over this helper's own table, with its columns and
        having, and is never driven by a join. */
    method Update(cols': seq<string>, vals: seq<string>) returns (u: TableUpdate)
      ensures fresh(u) && u.t == t && u.cols == cols' && u.vals == vals
      ensures u.contextby == Some(cols) && u.having == having && !u.mergeForUpdate && u.where.None?
    {
      u := new TableUpdate(t, cols', vals, Some(cols), having);
    }
  }

  // ---------------------------------------------------------------------------
  // The statement objects
  // ---------------------------------------------------------------------------

  /** `TableUpdate`: `update T set c=v,... where ... context by ... having ...`, or, when
      driven by a join, the left source updated from the join. */
  class TableUpdate {
    const t: Table
    const cols: seq<string>
    const vals: seq<string>
    const contextby: Option<seq<string>>
    const having: Option<string>
    var mergeForUpdate: bool
    var where: Option<seq<string>>

    constructor (t: Table, cols: seq<string>, vals: seq<string>, contextby: Option<seq<string>>, having: Option<string>)
      ensures this.t == t && this.cols == cols && this.vals == vals
      ensures this.contextby == contextby && this.having == having && !mergeForUpdate && where.None?
    {
      this.t := t;
      this.cols := cols;
      this.vals := vals;
      this.contextby := contextby;
      this.having := having;
      mergeForUpdate := false;
      where := None;
    }

    /** `_setMergeForUpdate` */
    method SetMergeForUpdate(b: bool)
      modifies this
      ensures mergeForUpdate == b && where == old(where)
    {
      mergeForUpdate := b;
    }

    /** `_assembleUpdate`: `c=v,` for each zipped pair, then the last comma cut off. */
    method AssembleUpdate() returns (s: string)
      ensures s == UpdateSet(cols, vals)
    {
      var query := "";
      var n := if |cols| < |vals| then |cols| else |vals|;
      ghost var a := Assignments(cols, vals);
      for i := 0 to n
        invariant query == Terminated(",", a[..i])
      {
        assert a[..i + 1][..i] == a[..i];
        query := query + cols[i] + "=" + vals[i] + ",";
      }
      assert a[..n] == a;
      TrimTerminated(",", a);
      s := DropLast(query);
    }

    /** `where`: the update keeps its own conditions, apart from the table's. */
    method Where(conds: Operands)
      modifies this
      ensures where == Some((if old(where).Some? then old(where).value else []) + Texts(conds))
      ensures mergeForUpdate == old(mergeForUpdate)
    {
      var w := AppendConds(if where.Some? then where.value else [], conds);
      where := Some(w);
    }

    /** `showSQL`: without a join, the update's own conditions; with one, the left source,
        the join expression and the joined table's conditions, after which the table's update
        flag is cleared. */
    method ShowSQL() returns (r: Result<string>)
      modifies t
      ensures !mergeForUpdate ==> r == Ok(UpdateStatement(t.q.name, UpdateSet(cols, vals), where, contextby, having))
      ensures !mergeForUpdate ==> t.q == old(t.q)
      ensures mergeForUpdate ==>
        r == JoinUpdateStatement(old(t.q).left, old(t.q).name, UpdateSet(cols, vals), AssembleWhere(old(t.q).where), contextby, having)
      ensures mergeForUpdate && r.Ok? ==> t.q == old(t.q).(mergeForUpdate := false)
      ensures r.Err? ==> t.q == old(t.q)
      ensures t.ref == old(t.ref) && t.origin == old(t.origin)
    {
      var assigns := AssembleUpdate();
      if !mergeForUpdate {
        return Ok(UpdateStatement(t.q.name, assigns, where, contextby, having));
      }
      r := JoinUpdateStatement(t.q.left, t.q.name, assigns, AssembleWhere(t.q.where), contextby, having);
      if r.Ok? {
        t.q := t.q.(mergeForUpdate := false);
      }
    }
  }

  /** An update built from a join marked for update, as written: the copy the update is built
      over has no left source, so the statement is always refused. */
  method UpdateJoinAsWritten(j: Table, cols: seq<string>, vals: seq<string>) returns (r: Result<string>)
    requires j.q.mergeForUpdate
    modifies j.ref
    ensures r == Err(MissingLeftTable)
  {
    var u := j.UpdateAsWritten(cols, vals);
    r := u.ShowSQL();
  }

  /** The same update with the join sources kept: the left source is updated from the join. */
  method UpdateJoin(j: Table, cols: seq<string>, vals: seq<string>) returns (r: Result<string>)
    requires j.q.mergeForUpdate && j.q.left.Some?
    modifies j.ref
    ensures r == Ok(Compact(["update", j.q.left.value, "set", UpdateSet(cols, vals), "from", j.q.name,
                             AssembleWhere(j.q.where), "", ""]))
  {
    var u := j.Update(cols, vals);
    r := u.ShowSQL();
  }

  /** `TableDelete`: `delete from T where ...` with the delete's own conditions. */
  class TableDelete {
    const t: Table
    var where: Option<seq<string>>

    constructor (t: Table)
      ensures this.t == t && where.None?
    {
      this.t := t;
      where := None;
    }

    /** `where` */
    method Where(conds: Operands)
      modifies this
      ensures where == Some((if old(where).Some? then old(where).value else []) + Texts(conds))
    {
      var w := AppendConds(if where.Some? then where.value else [], conds);
      where := Some(w);
    }

    /** `showSQL` */
    method ShowSQL() returns (s: string)
      ensures s == DeleteStatement(t.q.name, where)
    {
      s := DeleteStatement(t.q.name, where);
    }
  }

  /** `TablePivotBy`: `select V from T where ... pivot by R,C`. */
  class TablePivotBy {
    const t: Table
    const row: string
    const column: string
    const value: Option<string>
    const agg: Option<string>

    constructor (t: Table, row: string, column: string, value: Option<string>, agg: Option<string>)
      ensures this.t == t && this.row == row && this.column == column && this.value == value && this.agg == agg
    {
      this.t := t;
      this.row := row;
      this.column := column;
      this.value := value;
      this.agg := agg;
    }

    /** `showSQL` */
    method ShowSQL() returns (s: string)
      ensures s == PivotStatement(t.q, row, column, value, agg)
    {
      s := PivotStatement(t.q, row, column, value, agg);
    }
  }
}
