# DolphinDB table query builder, modelled in Dafny

This project models the part of the DolphinDB Python API that builds DolphinDB script text on
the client:

- `vector.py`: the column `Vector` and the `FilterCond` operators. Comparisons, arithmetic, `&`,
  `|` and `//` build fully parenthesised condition text.
- `table.py`: the `Table` query builder.
  - Every builder (`select`, `where`, `sort`, `top`, `merge`, ...) forks a copy of the table. The
    copy of a table under garbage collection shares its reference `Counter`. The builder then
    sets one clause on the copy.
  - `showSQL` assembles the clauses into one `select`/`exec` statement.
  - `rows` rewrites that statement into a row-count query.
  - The grouping helpers `TableGroupby` and `TableContextby` handle `agg`, `agg2`, `sort`,
    `csort`, `having` and iteration.
  - `TableUpdate`, `TableDelete` and `TablePivotBy` render `update`, `delete` and `pivot by`
    statements.
  - `__del__` decides whether the last release of a temporary table sends an `undef` command.
- `database.py`: the `createTable` and `createPartitionedTable` command strings.

The files:

- `strings.dfy` (module `Strings`): the Python string operations the builders rely on, each
  with its facts proved.
  - `', '.join`, `s.strip()`, `re.sub(' +', ' ', ...)`, `str(int)`, `lower()` and `find`.
  - The backtick lists of join keys, with a round trip back to the keys, and `rfind`.
- `vector.dfy` (module `Vectors`): the operators as functions on condition values.
  - Python's operator dispatch, including reflected comparisons and the cases that raise.
  - Proofs that every rendered condition is one balanced parenthesised group.
- `query.dfy` (module `Queries`): the clause state of a table as a value (`Query`), with
  `showSQL` and the pure parts of every builder.
  - Sort keys, join names, aggregate projections, the update/delete/pivot statements and the
    row-count rewrite.
  - Each with the properties the source promises: which clause a builder changes, layout,
    error cases, and keys recoverable from names.
- `tables.dfy` (module `Tables`): the stateful objects as classes.
  - `Counter`, and `Table`, whose builders are methods that allocate a copy, bump the shared
    count and set one field.
  - The grouping helpers, whose iteration index and `having` change in place.
  - `TableUpdate`, `TableDelete` and `TablePivotBy`.
  - The release protocol of `__del__`.
  - Every method is proved against the `Queries` function that specifies it.
- `database.dfy` (module `Databases`): the command builders as loops over `runstr`, proved
  equal to specification functions. The generated handle is a parameter.

Errors that the source raises (`RuntimeError`, `ValueError`, `KeyError`, an `AttributeError`
from an unset attribute) are the `Err` cases of `Result`, one `Error` constructor per cause.

## Model

| member | source | states |
|---|---|---|
| Tables.Counter.constructor | table.py:36-39 | a new counter holds 1 |
| Tables.Counter.Inc | table.py:41-49 | the count grows by one and the new count is returned |
| Tables.Counter.Dec | table.py:51-59 | the count drops by one and the new count is returned |
| Vectors.Symbol | vector.py:40-77 | every operator's symbol is one or two characters with no parenthesis, so rendered conditions stay balanced |
| Vectors.Mirror | vector.py:40-55 | the reflected operator Python tries for a comparison is again a comparison |
| Vectors.Apply | vector.py:40-138 | a binary operator evaluated by Python's dispatch raises exactly for `/` and for a literal on the left that is not a comparison with a column or condition on the right; otherwise it yields the condition with the left operand's text, the operator and the right operand's text, or the mirrored comparison |
| Vectors.BuildShows | vector.py:40-138 | evaluating a well-formed expression operator by operator never raises and yields exactly its fully parenthesised infix text, in which `l // r` is `int(` around `l` alone |
| Vectors.ReflectedComparison | vector.py:98-113 | a literal on the left of a comparison gives the right operand's mirrored comparison |
| Vectors.BuildRefuses | vector.py:58-77 | whenever a column or a condition takes part, Python raises for arithmetic with a literal on the left, for `&`/`\|` on a bare column or literal, for `//` on a literal and for `/` |
| Vectors.ConditionActsAsColumn | vector.py:98-135 | under every comparison and arithmetic operator a condition behaves exactly as a column named by its rendered text (`//` and the logical and/or operators are outside this set; `BuildRefuses` shows a column refuses the logical ones) |
| Vectors.AndOrWrapped | vector.py:92-96 | `&` and `\|` of a balanced condition render as one closed parenthesised group |
| Vectors.RenderWrapped | vector.py:89-90 | a condition over balanced operands renders as one closed parenthesised group |
| Vectors.IntOfWrapped | vector.py:79-80 | `int(` around a balanced text also renders as one closed group |
| Vectors.ShowWrapped | vector.py:82-138 | every operator node of a filter expression renders as one closed group, so nesting never reparses |
| Vectors.FloorDivAsWrittenDropsDivisor | vector.py:79-80 | as written, `v // 2` and `v // 3` render the same text `(int( v ))` |
| Vectors.FloorDivAsWrittenIgnoresDivisor | vector.py:137-138 | for every dividend and any two divisors, `//` as written renders the same text, and never the text with the divisor kept |
| Vectors.FloorDivKeepsDivisor | vector.py:79-80 | with the divisor kept, as intended, equal renderings have equal divisors |
| Strings.StripCollapseTidy | table.py:1060 | `re.sub(' +', ' ', s.strip())` always yields text with no edge spaces and no double spaces |
| Strings.CollapseIdempotent | table.py:1060 | collapsing spaces twice is collapsing once |
| Strings.SectionsCollapse | table.py:1049-1060 | tidy sections joined by spaces, stripped and collapsed, are the non-empty sections joined by single spaces |
| Strings.TrimTerminated | table.py:1368-1372 | appending `x,` per item and cutting the last character gives the comma-joined items |
| Strings.TerminatedJoin | table.py:1370-1371 | the terminated text is the joined text plus one trailing separator |
| Strings.BackticksRoundTrip | table.py:808-809 | a backtick-prefixed key list parses back to the keys when no key holds a backtick |
| Strings.BackticksNoChar | table.py:808-809 | a backtick list adds no character but the backtick, so comma-free keys give a comma-free list |
| Strings.IntToString | table.py:444-445 | `str(n)` is non-empty, tidy and free of backticks |
| Strings.Lower | table.py:644 | `lower()` keeps the length and lowers exactly the ASCII capitals |
| Strings.IndexOf | table.py:644 | the first occurrence of the pattern, or None exactly when there is none |
| Queries.CopyOf | table.py:228-295 | a copy keeps every clause and drops the join sources and the update flag |
| Queries.AssembleSelect | table.py:990-999 | the projection is `*` exactly when it is unset, empty or the single column `*` |
| Queries.Parts | table.py:1047-1058 | the template has eleven sections, with `from` and the table name at fixed places |
| Queries.ShowSQL | table.py:1039-1065 | the statement is tidy |
| Queries.ShowSQLLayout | table.py:1039-1065 | `showSQL` lays the set clauses out in template order, separated by single spaces |
| Queries.PartsTidy | table.py:990-1037 | every assembled clause of a tidy table is tidy |
| Queries.ClausesTidy | table.py:990-1058 | each of the eight clause assemblers yields tidy text |
| Queries.CopyRendersSame | table.py:228-295 | copying a table does not change its statement |
| Queries.Items | table.py:324-331 | a bare name is the one-element list; a list is kept |
| Queries.Texts | table.py:407-416 | conditions or keys are stringified one by one, in order |
| Queries.NumTexts | table.py:473-477 | limit bounds are stringified one by one, in order |
| Queries.SortKeysAsWritten | table.py:418-442 | refused exactly on a flag-list length mismatch; otherwise one key per column, in order, with ` desc` exactly where its flag is False, except that a single column with a flag list stays ascending |
| Queries.SortKeys | table.py:418-442 | the corrected keys: refused exactly on a flag-list length mismatch; otherwise each key, with ` desc` exactly where its flag is False |
| Queries.SortKeysAgree | table.py:418-442 | the code as written matches the corrected keys except for one column with a flag list |
| Queries.SortSingleFlagIgnored | table.py:440-442 | `sort("a", ascending=[False])` keeps `a` ascending as written; the corrected keys give `a desc` |
| Queries.SourceName | table.py:775-783 | a materialized table reads from its name, any other from its own statement in parentheses |
| Queries.WithGroupBy | table.py:530-535 | a group-by is refused exactly when a context-by is present |
| Queries.WithContextBy | table.py:537-542 | a context-by is refused exactly when a group-by is present |
| Queries.WhereChangesOneClause | table.py:516-528 | `where` changes only the where section |
| Queries.TopChangesOneClause | table.py:575-586 | `top` changes only the top section, to `top n` |
| Queries.LimitChangesOneClause | table.py:602-615 | `limit` changes only the limit section |
| Queries.HavingChangesOneClause | table.py:1662-1674 | `having` changes only the having section |
| Queries.SortChangesOneClause | table.py:561-600 | `sort` and `csort` succeed together and each changes only its own section |
| Queries.GroupingChangesOneClause | table.py:547-559 | `groupby`/`contextby` change only the grouping section, to `group by`/`context by` and the columns |
| Queries.WhereAppends | table.py:407-416 | new conditions go after the earlier ones, in order |
| Queries.SelectNests | table.py:482-514 | `select` changes the projection and, for a table that is not materialized, nests its statement as the table; `exec` switches the keyword |
| Queries.ProjectionParts | table.py:482-497 | queries differing only in projection and table differ only in those two sections |
| Queries.ResolveKeys | table.py:789-806 | `on` wins; one side alone serves both; errors for no keys and for a length mismatch; equal lengths otherwise |
| Queries.ResolveKeysSwap | table.py:785-787 | exchanging the sides exchanges the resolved keys and keeps the errors |
| Queries.SortPrefix | table.py:773 | the prefix is `s` exactly for a sorted join that is not a full join |
| Queries.MergeName | table.py:767-811 | the name fails exactly for an unknown `how` or unresolvable keys |
| Queries.RightJoinSwaps | table.py:785-787 | a right join is the left join of the exchanged operands and keys |
| Queries.JoinNameShape | table.py:808-811 | a join name is `f(L,R,keys,keys)` |
| Queries.HowMapFacts | table.py:767-772 | every join function is non-empty, none starts with `s`, and only `outer` maps to `fj` |
| Queries.MergeNameShape | table.py:767-811 | the name is the join function, with `s` in front exactly for a sorted non-full join |
| Queries.Merge | table.py:741-833 | a join is refused exactly for an unknown `how`, unresolvable keys, or an unset projection on either side (the `_getSelect` reads after the copy), with that error |
| Queries.MergeResult | table.py:825-833 | the joined query projects `*`, remembers both sources, carries the update flag and is not materialized |
| Queries.AsofName | table.py:860-881 | the asof name fails exactly on unresolvable keys and is `aj(...)` |
| Queries.MergeAsof | table.py:835-898 | the asof join fails on bad keys or an unset projection on either side; otherwise it reads `*` from its name, keeps both sources and never sets the update flag |
| Queries.WindowName | table.py:923-957 | the window name fails on unresolvable keys and starts with `pwj(` or `wj(` as `prevailing` says |
| Queries.WindowArgs | table.py:947-957 | the window arguments end with the closing parenthesis |
| Queries.MergeWindow | table.py:900-964 | reads `*` from the window name over the bare table names and keeps the materialized flag |
| Queries.MergeCross | table.py:966-985 | `cj(L,R)` over the bare names; never fails |
| Queries.JoinKeysRecoverable | table.py:808-811 | the two key lists read back from the last two arguments of a join name, when no key holds a backtick or a comma |
| Queries.MergeKeysRecoverable | table.py:767-811 | the key lists read back from a `merge` name are the resolved keys, exchanged for a right join |
| Queries.AsofKeysRecoverable | table.py:860-881 | the key lists read back from a `merge_asof` name are the resolved keys |
| Queries.WindowKeysRecoverable | table.py:923-957 | the key lists read back from a `merge_window` name are the resolved keys, whatever the bounds and aggregates |
| Queries.Product | table.py:1725-1726 | the two-level comprehension has `\|xs\| * \|ys\|` entries |
| Queries.ProductAt | table.py:1725-1726 | entry `(i, j)` of the comprehension sits at `i * \|ys\| + j` |
| Queries.AggColumns | table.py:1714-1739 | refused for an unset projection or a bad `func`; one function keeps the column count, a list multiplies it |
| Queries.AggListOrder | table.py:1724-1726 | with a list, columns are outer and functions inner |
| Queries.AggNameIsSingletonList | table.py:1724-1734 | one function behaves as the one-element list of it |
| Queries.AggDictUniform | table.py:1727-1732 | a dictionary giving every key the same functions is the list form over its keys |
| Queries.GroupAgg | table.py:1714-1739 | `agg` selects the aggregated projection from the grouped table |
| Queries.Without | table.py:2069-2078 | filtering keeps exactly the items not dropped |
| Queries.WithoutNothing | table.py:2069-2078 | filtering with nothing to drop keeps the list |
| Queries.DictWithout | table.py:2075-2076 | dictionary entries whose key is a grouping column are skipped |
| Queries.DictWithoutNothing | table.py:2075-2076 | with no grouping column among the keys, every entry is kept |
| Queries.ContextAggColumns | table.py:2058-2090 | the context-by columns come first, then the aggregates |
| Queries.ContextAggOneFunction | table.py:2077-2078 | with one function, exactly the projected non-grouping columns are aggregated |
| Queries.ContextAggExtendsGroupAgg | table.py:2058-2090 | with no grouping column involved, context-by aggregation is the group-by one behind the grouping columns |
| Queries.ContextAgg | table.py:2058-2090 | `agg` selects the grouping columns then the aggregates |
| Queries.Agg2Columns | table.py:1847-1853 | refused exactly when an element is not a pair; functions times pairs entries |
| Queries.Agg2Order | table.py:1853 | functions outer, pairs inner |
| Queries.GroupAgg2 | table.py:1837-1856 | refused exactly when an element is not a pair, or when there are no computed columns and no projection to fall back on |
| Queries.ContextAgg2 | table.py:2092-2111 | the computed columns are appended to the builder's projection, which is then selected |
| Queries.Agg2Projections | table.py:1837-1856 | group-by `agg2` replaces the projection; context-by `agg2` keeps it in front |
| Queries.Assignments | table.py:1370-1371 | `c=v` over the zipped lists; zip stops at the shorter list |
| Queries.UpdateStatement | table.py:1415-1432 | the update statement is tidy |
| Queries.UpdateLayout | table.py:1415-1432 | `update T set A`, then the non-empty where, context-by and having sections, single-spaced |
| Queries.JoinUpdateStatement | table.py:1433-1454 | refused without a left table or with a non-empty context-by; otherwise tidy |
| Queries.DeleteStatement | table.py:1316-1321 | the delete statement is tidy |
| Queries.DeleteLayout | table.py:1316-1321 | `delete from T`, then ` where c1 and c2` exactly when there are conditions |
| Queries.PivotStatement | table.py:1541-1560 | the pivot statement is tidy |
| Queries.PivotIgnoresOtherClauses | table.py:1548-1558 | no grouping, sort, having, top or limit clause reaches a pivot |
| Queries.PivotLayout | table.py:1541-1560 | keyword, projection, `from T`, where, then `pivot by R,C`, single-spaced |
| Queries.CompactLeadingSpace | table.py:1426 | the having section's leading space makes no difference |
| Queries.CountSQLAsWritten | table.py:643-645 | as written, refused exactly when the lowered statement has no `from`; otherwise `select count(*) as ct ` and the statement from its first lowered `from` on |
| Queries.CountSQL | table.py:633-650 | the corrected row-count statement is tidy |
| Queries.CountSQLKeepsFromClause | table.py:633-650 | the statement is its projection part plus its `from` part, and the count query is the count head plus that same `from` part |
| Queries.CountSQLIgnoresProjection | table.py:644-645 | the count does not depend on the keyword, top or projection |
| Queries.CountSQLAsWrittenAgrees | table.py:633-650 | the count as written equals the count kept at the `from` section exactly when keyword, top and projection hold no `from` in any case |
| Queries.CountSQLFromInColumnName | table.py:644-645 | on a column named `fromage`, the cut as written lands inside the projection; the corrected count keeps `from t` |
| Tables.AppendConds | table.py:407-416 | the loop appends the stringified conditions in order |
| Tables.BuildSortKeys | table.py:418-442 | the loop computes exactly the sort keys as written, or the length error |
| Tables.UndefCommand | table.py:311-316 | the release command is `undef('name')` or `undef('name', VAR)` |
| Tables.IsTemporaryByIndex | table.py:310 | `find` finds the prefix exactly when the name contains it |
| Tables.TemporaryNameSends | table.py:304-312 | a generated temporary name qualifies for the release command |
| Tables.Table.constructor | table.py:84-157 | a fresh query on the name, with the collection flag and address as given and a counter at 1 |
| Tables.Table.Copy | table.py:228-295 | a fresh table with the copied clauses; the copy of a collected table shares its counter, which grows by one; an uncollected table's counter is left alone |
| Tables.Table.SetSelect | table.py:324-331 | only the projection changes |
| Tables.Table.AddWhere | table.py:407-416 | only the conditions change, by appending |
| Tables.Table.SetSort | table.py:418-442 | on a flag-list mismatch the stringified columns are stored and the error is returned; otherwise only the order-by keys change, to the keys as written |
| Tables.Table.SetCsort | table.py:447-471 | the same for the csort keys, as written |
| Tables.Table.SetTop | table.py:444-445 | only the top changes |
| Tables.Table.SetLimit | table.py:473-477 | only the limit changes |
| Tables.Table.SetHaving | table.py:544-545 | only the having changes |
| Tables.Table.SetGroupBy | table.py:530-535 | refused with nothing changed when a context-by is present; otherwise only the grouping changes |
| Tables.Table.SetContextBy | table.py:537-542 | refused with nothing changed when a group-by is present; otherwise only the grouping changes |
| Tables.Table.Select | table.py:482-497 | a fresh sharing table whose query is `Queries.Select` of this one |
| Tables.Table.Exec | table.py:499-514 | a fresh sharing table whose query is `Queries.Exec` of this one |
| Tables.Table.Where | table.py:516-528 | a fresh sharing table whose query is `Queries.Where` of this one |
| Tables.Table.Sort | table.py:561-573 | the copy is counted even when refused; otherwise the sorted query |
| Tables.Table.Csort | table.py:588-600 | the copy is counted even when refused; otherwise the csorted query |
| Tables.Table.Top | table.py:575-586 | a fresh sharing table whose query is `Queries.Top` of this one |
| Tables.Table.Limit | table.py:602-615 | a fresh sharing table whose query is `Queries.Limit` of this one |
| Tables.Table.GroupBy | table.py:547-559 | a helper over a grouped copy, or the conflict error |
| Tables.Table.ContextBy | table.py:1168-1182 | a helper over a copy carrying the context-by and the update flag, or the conflict error |
| Tables.Table.JoinCopy | table.py:815-831 | the copy every join starts from: both sources, the join name and `*` |
| Tables.Table.Merge | table.py:741-833 | a refused name forks nothing, an unset projection fails with the copy counted; otherwise a fresh sharing table with `Queries.Merge` |
| Tables.Table.MergeAsof | table.py:835-898 | the same for `merge_asof` |
| Tables.Table.MergeWindow | table.py:900-964 | a refused name forks nothing; otherwise a fresh sharing table with `Queries.MergeWindow` |
| Tables.Table.MergeCross | table.py:966-985 | a fresh sharing table with `Queries.MergeCross` |
| Tables.Table.PivotBy | table.py:726-739 | a pivot helper over a copy, with the row, column, value and aggregate |
| Tables.Table.Delete | table.py:1113-1121 | a delete helper over a copy, with no conditions |
| Tables.Table.UpdateAsWritten | table.py:1086-1102 | as written: over a plain copy, which has lost the join sources; context-by and having never carried |
| Tables.Table.Update | table.py:1086-1102 | the corrected update keeps the join sources on its copy |
| Tables.Table.ReleaseAsWritten | table.py:297-322 | the count drops; a command is sent exactly when this was the last holder and its own name qualifies |
| Tables.Table.Release | table.py:297-322 | the corrected release decides with the name and address of the object the counter guards |
| Tables.ReleaseAll | table.py:297-322 | with the corrected release, releasing every holder sends at most the one undef of the guarded object |
| Tables.ReleaseTwoAsWritten | table.py:297-322 | two holders released in turn decide by the second holder's name |
| Tables.SelectionNeverSends | table.py:304-305 | a selection over a table that is not materialized has a parenthesised name and never sends |
| Tables.ReleaseLeakAsWritten | table.py:297-322 | a temporary and a selection over it, released as written, send nothing: the temporary leaks |
| Tables.ReleaseLeakCorrected | table.py:297-322 | released by the guarded object, the temporary's undef is sent |
| Tables.TableGroupby.constructor | table.py:1586-1593 | a bare column is the one-element list; the index starts at 0 |
| Tables.TableGroupby.Start | table.py:1642-1644 | `__iter__` rewinds the index |
| Tables.TableGroupby.Next | table.py:1646-1660 | the next column and one step, or stop with nothing changed |
| Tables.TableGroupby.Columns | table.py:1007-1014 | iterating the helper yields the columns joined with commas |
| Tables.TableGroupby.Sort | table.py:1596-1608 | a new helper over a sorted copy, same columns and having |
| Tables.TableGroupby.Csort | table.py:1610-1622 | a new helper over a csorted copy, same columns and having |
| Tables.TableGroupby.Having | table.py:1662-1674 | the helper remembers the expression, and a copy carries it |
| Tables.TableGroupby.Agg | table.py:1714-1739 | the result table carries `GroupAgg`; a refusal forks nothing |
| Tables.TableGroupby.Agg2 | table.py:1837-1856 | the result table carries `GroupAgg2`; a refusal forks nothing |
| Tables.TableContextby.constructor | table.py:1921-1928 | a bare column is the one-element list; the index starts at 0 |
| Tables.TableContextby.Start | table.py:1977-1979 | `__iter__` rewinds the index |
| Tables.TableContextby.Next | table.py:1981-1995 | the next column and one step, or stop with nothing changed |
| Tables.TableContextby.Columns | table.py:1007-1014 | iterating the helper yields the columns joined with commas |
| Tables.TableContextby.Sort | table.py:1931-1943 | a new helper over a sorted copy, without a having |
| Tables.TableContextby.Csort | table.py:1945-1957 | a new helper over a csorted copy, without a having |
| Tables.TableContextby.Having | table.py:1959-1971 | the helper remembers the expression, and a copy carries it |
| Tables.TableContextby.Top | table.py:2012-2021 | passed on to the table's `top` |
| Tables.TableContextby.Limit | table.py:2023-2034 | passed on to the table's `limit` |
| Tables.TableContextby.Agg | table.py:2058-2090 | the result table carries `ContextAgg` |
| Tables.TableContextby.Agg2 | table.py:2092-2111 | the builder's own projection is extended in place, and the result selects it |
| Tables.TableContextby.Update | table.py:2113-2124 | the update is built over the helper's own table with its columns and having |
| Tables.TableUpdate.constructor | table.py:1355-1362 | the fields as given, the update flag off, no conditions |
| Tables.TableUpdate.SetMergeForUpdate | table.py:1365-1366 | only the flag changes |
| Tables.TableUpdate.AssembleUpdate | table.py:1368-1372 | the loop builds `c1=v1,c2=v2` over the zipped lists |
| Tables.TableUpdate.Where | table.py:1380-1402 | the update's own conditions grow by appending |
| Tables.TableUpdate.ShowSQL | table.py:1404-1454 | the plain statement, or the join statement that clears the join's update flag, or the error |
| Tables.UpdateJoinAsWritten | table.py:1086-1102 | as written, an update of a join marked for update always fails for a missing left table |
| Tables.UpdateJoin | table.py:1433-1454 | with the sources kept, it renders `update L set A from J ...` |
| Tables.TableDelete.constructor | table.py:1270-1272 | no conditions yet |
| Tables.TableDelete.Where | table.py:1281-1303 | the delete's own conditions grow by appending |
| Tables.TableDelete.ShowSQL | table.py:1305-1321 | the delete statement over the delete's own conditions |
| Tables.TablePivotBy.constructor | table.py:1491-1497 | the fields as given |
| Tables.TablePivotBy.ShowSQL | table.py:1541-1560 | the pivot statement |
| Databases.SortColumnsText | database.py:42-48 | absent or another type adds nothing; otherwise it starts `,sortColumns=` |
| Databases.PartitionText | database.py:82-90 | refused exactly for a type that is neither a string nor a list |
| Databases.CompressItems | database.py:96-97 | one `col:'method'` per dictionary entry, in order |
| Databases.CompressText | database.py:94-98 | empty exactly for an empty dictionary |
| Databases.KeepDuplicatesText | database.py:120-124 | refused exactly for a value that is not a string; nothing when absent |
| Databases.CreateTableCommand | database.py:24-53 | refused exactly for a non-table; otherwise `handle=db.createTable(T,`name` ... `);` |
| Databases.CreatePartitionedTableCommand | database.py:55-127 | refused for a non-table, then bad partition columns, then a bad keepDuplicates, in that order; otherwise the head ... `);` |
| Databases.PartitionedCommandOk | database.py:92-125 | the accepted command is the head, the sections in order, and `);` |
| Databases.SortColumnOneIsList | database.py:43-48 | one sort column renders as the one-element list |
| Databases.PartitionOneIsList | database.py:83-88 | one partition column renders as the one-element list |
| Databases.SortColumnsRecoverable | database.py:45-48 | the sort columns read back from their section |
| Databases.PartitionRecoverable | database.py:85-88 | the partition columns read back from their section |
| Databases.AppendBackticks | database.py:47-48 | the loop appends a backtick and the key, per key |
| Databases.AppendSortColumns | database.py:42-48 | the branch appends exactly the sort section |
| Databases.BuildPartition | database.py:82-90 | the loop builds exactly the partition section, or the error |
| Databases.AppendCompress | database.py:94-98 | the loop and the last-comma cut build exactly the compress section |
| Databases.AppendKeepDuplicates | database.py:120-124 | appended when a string, refused otherwise |
| Databases.Database.constructor | database.py:16-19 | the database name as given |
| Databases.Database.CreateTable | database.py:24-53 | the command built step by step equals `CreateTableCommand` |
| Databases.Database.CreatePartitionedTable | database.py:55-127 | the command built step by step equals `CreatePartitionedTableCommand` |

## Left out

- Session I/O. `run`, `upload`, `loadTable`, `execute`, `toDF`, `executeAs` and the row count's
  result handling are not modelled. Commands are returned as text.
- The random handle and table names (`_generate_handle`, `_generate_tablename`) are parameters.
  Their only modelled property is the `TMP_TBL_` prefix.
- The lock inside `Counter` is not modelled, because the model is single-threaded. `Counter.val`
  is the field itself.
- Garbage-collection timing is not modelled. `__del__` is a method the caller invokes, and
  `isClosed()` is the `sessionOpen` parameter.
- The `inspect` caller check at the top of `TableUpdate.showSQL` and `TableDelete.showSQL` is not
  modelled. The model always renders the update/delete statement.
- Verbose printing and the pandas/orca data paths of the constructor are not modelled. The same
  goes for `_init_schema`, `__getattr__`, `__getitem__`, `drop`, `rename`, `append`, `ols`,
  `selectAsVector` and the `sum`/`avg`/... wrappers, which only call `agg`/`agg2` with a name.
- `normalize_caseless` and `_getFuncName` are not modelled; aggregate functions are their names.
- Tables.TableContextby.Agg2: the result table's projection is modelled as a value. The list
  the source shares between the builder and the result is not modelled as aliasing.
- Queries.Merge: the `rightSelectCols` list is computed and never used, so only its failure is modelled: reading an unset
  projection of either side fails with `SelectUnset` after the copy, in `merge` as in `merge_asof`.
- Strings.Lower: only ASCII capitals are lowered. Python's Unicode case mapping is not modelled.
- Queries.ShowSQL: `_assembleLimit` on a value that is neither a list nor None returns it as is.
  Only the list form `_setLimit` produces is modelled; an empty list renders `[]` as Python
  prints it.
- Tables.Table.Sort: on a length mismatch the source raises after forking. The model returns
  the error with the count bumped, as in the source, but does not return the orphaned copy.
- Vectors.Apply: two literals are computed by Python itself, not by a column or a condition.
  That case, such as `1 < 2`, is not modelled, and `Apply` returns None for it.
- Tables.Table.constructor: the source creates a `Counter` only when the table is under garbage
  collection. The model always allocates one, so the `ref` field is never null. An uncollected
  table's counter is never incremented, decremented or read.
- Vectors.FloorDivAsWritten: the expression evaluator uses `//` as written. The corrected
  `FloorDiv` is proved apart, under Findings.
- Queries.SortKeysAsWritten: the builders use the keys as written. The corrected `SortKeys` is
  proved apart, under Findings.
- Queries.GroupingChangesOneClause: only a column name or a list of them is modelled. `groupby`
  also advertises a tuple, but `TableGroupby` wraps any non-list whole, so a tuple becomes one
  item and the `','.join` that renders the grouping raises `TypeError`. That failure is not
  modelled; `Names.NameList` stands for a list.
- Tables.TableGroupby.constructor: a tuple of columns is wrapped whole as `[tuple]` and later
  fails to join; the model takes only a name or a list. `TableContextby` wraps the same way,
  for the name or list its `contextby` advertises.
- Tables.Table.GroupBy: the tuple form of its argument is not modelled, as above.
- Queries.WindowAggs: `merge_window` takes its aggregates as a name or a list. A tuple, which
  its signature does not advertise, raises on `'<' + tuple` and is not modelled.
- Iteration with `next` before `__iter__` raises `AttributeError` in the source. The model
  starts the index at 0.

## Findings

| source | as written | input that shows it | evidently intended | confidence | as-written member | corrected member |
|---|---|---|---|---|---|---|
| table.py:440-442 | one sort column takes ` desc` only from a bare `False`; a one-element flag list is ignored | `sort("a", ascending=[False])` gives `order by a` | `order by a desc`, as for several columns | not executed | Queries.SortSingleFlagIgnored | Queries.SortKeys |
| table.py:1097 | `update` builds over `copy.copy(self)`, which drops the left/right tables, so a join marked for update always raises "missing left table" | `t1.merge(t2, on="id", merge_for_update=True).update(["v"], ["1"]).showSQL()` | `update t1 set v=1 from lj(...)` | not executed | Tables.UpdateJoinAsWritten | Tables.UpdateJoin |
| table.py:644-645 | the count query cuts at the first `from` in the lowered text, which may sit inside a column name | `select fromage from t` gives `select count(*) as ct fromage from t` | `select count(*) as ct from t` | not executed | Queries.CountSQLFromInColumnName | Queries.CountSQLKeepsFromClause |
| table.py:297-322 | the last holder to release decides with its own name; a derived copy named by a parenthesised query suppresses the temporary's `undef` | a `TMP_TBL_` table that is not materialized, and a `select` over it, both released | one `undef('TMP_TBL_...')` | not executed | Tables.ReleaseLeakAsWritten | Tables.ReleaseLeakCorrected |
| vector.py:79-80 | `//` renders `int(` around the left operand only and drops the divisor | `v // 2` and `v // 3` both render `(int( v ))` | `(int( (v / 2) ))` | not executed | Vectors.FloorDivAsWrittenDropsDivisor | Vectors.FloorDivKeepsDivisor |
