/** Text helpers shared by the query compiler and the command builders:
    Python's `str.join`, `str.strip`, `re.sub(' +', ' ', ...)`, `str(int)`,
    and the error/option wrappers that stand for raised exceptions. */
module Strings {

  datatype Option<+T> = None | Some(value: T)

  /** The exceptions raised by the query layer, one constructor per raise site kind. */
  datatype Error =
    | SortLengthMismatch      // ValueError in _setSort/_setCsort
    | GroupingConflict        // RuntimeError('multiple context/group-by are not allowed ')
    | UnknownJoinKind         // KeyError from howMap[how]
    | MissingJoinKey          // none of on/left_on/right_on given
    | JoinKeyLengthMismatch   // left_on and right_on of different lengths
    | InvalidAggregateFunc    // agg with something that is not str/list/dict
    | InvalidAggregatePairs   // agg2 with an element that is not a 2-tuple
    | SelectUnset             // AttributeError: the projection was never set
    | MissingLeftTable        // 'Join for update missing left table!'
    | ContextByAttribute      // AttributeError on self.__t.__contextby in the join-update path
    | NotATable               // 'Only DolphinDB Table object is accepted'
    | InvalidPartitionColumns // 'Only String or List of String is accepted for partitionColumns'
    | InvalidKeepDuplicates   // 'Only str is accepted for keepDuplicates'
    | FromNotFound            // ValueError from str.index("from")

  datatype Result<+T> = Ok(value: T) | Err(error: Error)

  /** `sep.join(xs)` */
  function Join(sep: string, xs: seq<string>): (r: string)
    ensures xs == [] ==> r == ""
    ensures |xs| == 1 ==> r == xs[0]
  {
    if |xs| == 0 then ""
    else if |xs| == 1 then xs[0]
    else xs[0] + sep + Join(sep, xs[1..])
  }

  /** A joined list starts with its first item. */
  lemma JoinStartsWith(sep: string, xs: seq<string>)
    requires xs != []
    ensures StartsWith(Join(sep, xs), xs[0])
  {
    if |xs| > 1 {
      StartsWithConcat(xs[0], sep + Join(sep, xs[1..]));
      assert xs[0] + sep + Join(sep, xs[1..]) == xs[0] + (sep + Join(sep, xs[1..]));
    }
  }

  lemma JoinSnoc(sep: string, xs: seq<string>, x: string)
    requires xs != []
    ensures Join(sep, xs + [x]) == Join(sep, xs) + sep + x
  {
    if |xs| == 1 {
      assert xs + [x] == [xs[0], x];
    } else {
      assert (xs + [x])[1..] == xs[1..] + [x];
      JoinSnoc(sep, xs[1..], x);
    }
  }

  /** Concatenation of a sequence of strings (`''.join(xs)`). */
  function Concat(xs: seq<string>): (r: string)
    ensures xs == [] ==> r == ""
  {
    if xs == [] then "" else xs[0] + Concat(xs[1..])
  }

  lemma ConcatSnoc(xs: seq<string>, x: string)
    ensures Concat(xs + [x]) == Concat(xs) + x
  {
    if xs == [] {
      assert [] + [x] == [x];
    } else {
      assert (xs + [x])[1..] == xs[1..] + [x];
      ConcatSnoc(xs[1..], x);
    }
  }

  /** Every string followed by the separator: the text a `s += x + sep` loop builds. */
  function Terminated(sep: string, xs: seq<string>): string
  {
    if xs == [] then "" else Terminated(sep, xs[..|xs| - 1]) + xs[|xs| - 1] + sep
  }

  /** The terminated text is the joined text plus one trailing separator. */
  lemma {:induction false} TerminatedJoin(sep: string, xs: seq<string>)
    requires xs != []
    ensures Terminated(sep, xs) == Join(sep, xs) + sep
    decreases |xs|
  {
    var init := xs[..|xs| - 1];
    if |xs| > 1 {
      TerminatedJoin(sep, init);
      JoinSnoc(sep, init, xs[|xs| - 1]);
      assert init + [xs[|xs| - 1]] == xs;
    } else {
      assert init == [];
    }
  }

  /** Python's `s[:-1]`: the text without its last character; the empty text stays empty. */
  function DropLast(s: string): (r: string)
    ensures |s| > 0 ==> s == r + [s[|s| - 1]]
    ensures |s| == 0 ==> r == ""
  {
    if |s| == 0 then "" else s[..|s| - 1]
  }

  /** Cutting the last character off a terminated text gives the joined text, also for no items. */
  lemma TrimTerminated(sep: string, xs: seq<string>)
    requires |sep| == 1
    ensures DropLast(Terminated(sep, xs)) == Join(sep, xs)
  {
    if xs != [] {
      TerminatedJoin(sep, xs);
      var j := Join(sep, xs);
      assert (j + sep)[..|j + sep| - 1] == j;
    }
  }

  lemma DropLastAppend(a: string, b: string)
    requires b != []
    ensures DropLast(a + b) == a + DropLast(b)
  {
    assert (a + b)[..|a + b| - 1] == a + b[..|b| - 1];
  }

  predicate StartsWith(s: string, prefix: string)
  {
    |prefix| <= |s| && s[..|prefix|] == prefix
  }

  lemma StartsWithConcat(prefix: string, rest: string)
    ensures StartsWith(prefix + rest, prefix)
  {
    assert (prefix + rest)[..|prefix|] == prefix;
  }

  predicate EndsWith(s: string, suffix: string)
  {
    |suffix| <= |s| && s[|s| - |suffix|..] == suffix
  }

  lemma EndsWithConcat(rest: string, suffix: string)
    ensures EndsWith(rest + suffix, suffix)
  {
    assert (rest + suffix)[|rest + suffix| - |suffix|..] == suffix;
  }

  // ---------------------------------------------------------------------------
  // Whitespace: Python's str.isspace, str.strip and re.sub(' +', ' ', s)
  // ---------------------------------------------------------------------------

  /** The characters for which Python's `str.isspace()` holds. */
  predicate IsWhitespace(c: char)
  {
    ('\t' <= c <= '\r') || ('\U{1C}' <= c <= ' ') || c == '\U{85}' || c == '\U{A0}'
    || c == '\U{1680}' || ('\U{2000}' <= c <= '\U{200A}') || c == '\U{2028}' || c == '\U{2029}'
    || c == '\U{202F}' || c == '\U{205F}' || c == '\U{3000}'
  }

  function StripLeft(s: string): (r: string)
    ensures |r| <= |s|
    ensures r == s[|s| - |r|..]
    ensures r != [] ==> !IsWhitespace(r[0])
  {
    if s != [] && IsWhitespace(s[0]) then StripLeft(s[1..]) else s
  }

  function StripRight(s: string): (r: string)
    ensures |r| <= |s|
    ensures r == s[..|r|]
    ensures r != [] ==> !IsWhitespace(r[|r| - 1])
  {
    if s != [] && IsWhitespace(s[|s| - 1]) then StripRight(s[..|s| - 1]) else s
  }

  lemma StripRightSpace(s: string)
    ensures StripRight(s + " ") == StripRight(s)
  {
    assert (s + " ")[..|s|] == s;
  }

  /** `s.strip()`: drop leading and trailing whitespace. */
  function Strip(s: string): (r: string)
  {
    StripRight(StripLeft(s))
  }

  /** `re.sub(' +', ' ', s)`: every run of spaces becomes one space. */
  function CollapseSpaces(s: string): (r: string)
  {
    if |s| <= 1 then s
    else if s[0] == ' ' && s[1] == ' ' then CollapseSpaces(s[1..])
    else [s[0]] + CollapseSpaces(s[1..])
  }

  predicate NoDoubleSpace(s: string)
  {
    forall i :: 0 <= i < |s| - 1 ==> !(s[i] == ' ' && s[i + 1] == ' ')
  }

  /** The string with every space removed: what CollapseSpaces must not change. */
  function WithoutSpaces(s: string): string
  {
    if s == [] then "" else (if s[0] == ' ' then "" else [s[0]]) + WithoutSpaces(s[1..])
  }

  lemma {:induction false} CollapseEnds(s: string)
    ensures |CollapseSpaces(s)| <= |s|
    ensures s != [] ==> CollapseSpaces(s) != [] && CollapseSpaces(s)[0] == s[0]
    ensures s != [] ==> CollapseSpaces(s)[|CollapseSpaces(s)| - 1] == s[|s| - 1]
    decreases |s|
  {
    if |s| > 1 {
      CollapseEnds(s[1..]);
      assert s[1..][|s[1..]| - 1] == s[|s| - 1];
      if !(s[0] == ' ' && s[1] == ' ') {
        var t := CollapseSpaces(s[1..]);
        assert CollapseSpaces(s) == [s[0]] + t;
        assert ([s[0]] + t)[|t|] == t[|t| - 1];
      }
    }
  }

  lemma {:induction false} CollapseClean(s: string)
    ensures NoDoubleSpace(CollapseSpaces(s))
    ensures WithoutSpaces(CollapseSpaces(s)) == WithoutSpaces(s)
    decreases |s|
  {
    if |s| <= 1 {
    } else if s[0] == ' ' && s[1] == ' ' {
      CollapseClean(s[1..]);
      assert WithoutSpaces(s) == WithoutSpaces(s[1..]);
    } else {
      CollapseClean(s[1..]);
      CollapseEnds(s[1..]);
      var t := CollapseSpaces(s[1..]);
      assert CollapseSpaces(s) == [s[0]] + t;
      assert t[0] == s[1];
      WithoutSpacesCons(s[0], t);
      NoDoubleSpaceCons(s[0], t);
    }
  }

  lemma CollapseFacts(s: string)
    ensures |CollapseSpaces(s)| <= |s|
    ensures s != [] ==> CollapseSpaces(s) != [] && CollapseSpaces(s)[0] == s[0]
    ensures s != [] ==> CollapseSpaces(s)[|CollapseSpaces(s)| - 1] == s[|s| - 1]
    ensures NoDoubleSpace(CollapseSpaces(s))
    ensures WithoutSpaces(CollapseSpaces(s)) == WithoutSpaces(s)
  {
    CollapseEnds(s);
    CollapseClean(s);
  }

  lemma WithoutSpacesCons(c: char, t: string)
    ensures WithoutSpaces([c] + t) == (if c == ' ' then "" else [c]) + WithoutSpaces(t)
  {
    assert ([c] + t)[1..] == t;
  }

  lemma NoDoubleSpaceCons(c: char, t: string)
    requires NoDoubleSpace(t) && (t != [] ==> !(c == ' ' && t[0] == ' '))
    ensures NoDoubleSpace([c] + t)
  {
    forall i | 0 <= i < |[c] + t| - 1
      ensures !(([c] + t)[i] == ' ' && ([c] + t)[i + 1] == ' ')
    {
      if i > 0 {
        assert ([c] + t)[i] == t[i - 1] && ([c] + t)[i + 1] == t[i];
      }
    }
  }

  /** Collapsing leaves a string that has no double space unchanged, so collapsing twice is collapsing once. */
  lemma {:induction false} CollapseIdentity(s: string)
    requires NoDoubleSpace(s)
    ensures CollapseSpaces(s) == s
    decreases |s|
  {
    if |s| > 1 {
      assert NoDoubleSpace(s[1..]) by {
        forall i | 0 <= i < |s[1..]| - 1 ensures !(s[1..][i] == ' ' && s[1..][i + 1] == ' ') {
          assert s[1..][i] == s[i + 1] && s[1..][i + 1] == s[i + 2];
        }
      }
      assert !(s[0] == ' ' && s[1] == ' ');
      CollapseIdentity(s[1..]);
      assert s == [s[0]] + s[1..];
    }
  }

  lemma CollapseIdempotent(s: string)
    ensures CollapseSpaces(CollapseSpaces(s)) == CollapseSpaces(s)
  {
    CollapseFacts(s);
    CollapseIdentity(CollapseSpaces(s));
  }

  /** Runs of spaces never cross a boundary where the left part ends with a non-space. */
  lemma {:induction false} CollapseAppend(a: string, b: string)
    requires a != [] && a[|a| - 1] != ' '
    ensures CollapseSpaces(a + b) == CollapseSpaces(a) + CollapseSpaces(b)
    decreases |a|
  {
    if |a| == 1 {
      if b == [] {
        assert a + b == a;
      } else {
        assert (a + b)[1..] == b;
      }
    } else {
      assert (a + b)[1..] == a[1..] + b;
      assert (a + b)[0] == a[0] && (a + b)[1] == a[1];
      CollapseAppend(a[1..], b);
    }
  }

  /** A space followed by a string that starts with a space collapses into that string. */
  lemma CollapseLeadingSpaces(b: string)
    requires b != [] && b[0] == ' '
    ensures CollapseSpaces(" " + b) == CollapseSpaces(b)
  {
    assert (" " + b)[1..] == b;
  }

  lemma CollapseSpaceThen(b: string)
    requires b != [] && b[0] != ' '
    ensures CollapseSpaces(" " + b) == " " + CollapseSpaces(b)
  {
    assert (" " + b)[1..] == b;
  }

  /** A clause body as the compiler expects it: no double space, no whitespace at either end. */
  predicate Tidy(s: string)
  {
    NoDoubleSpace(s) && (s != [] ==> !IsWhitespace(s[0]) && !IsWhitespace(s[|s| - 1]))
  }

  lemma TidyCollapses(s: string)
    requires Tidy(s)
    ensures CollapseSpaces(s) == s
  {
    CollapseIdentity(s);
  }

  /** Whatever goes in, `re.sub(' +', ' ', s.strip())` comes out tidy. */
  lemma {:induction false} StripCollapseTidy(s: string)
    ensures Tidy(CollapseSpaces(Strip(s)))
  {
    var t := Strip(s);
    CollapseFacts(t);
    assert t == StripRight(StripLeft(s));
    var u := StripLeft(s);
    if t != [] {
      assert !IsWhitespace(t[|t| - 1]);
      assert t[0] == u[0];
      assert !IsWhitespace(u[0]);
    }
  }

  lemma {:induction false} TidyConcat3(a: string, sep: string, b: string)
    requires Tidy(a) && a != [] && Tidy(b) && b != []
    requires Tidy(sep) && sep != []
    ensures Tidy(a + " " + sep + " " + b)
  {
    var s := a + " " + sep + " " + b;
    forall i | 0 <= i < |s| - 1 ensures !(s[i] == ' ' && s[i + 1] == ' ') {
      if i + 1 < |a| {
        assert s[i] == a[i] && s[i + 1] == a[i + 1];
      } else if i + 1 == |a| {
        assert s[i] == a[|a| - 1];
      } else if i == |a| {
        assert s[i + 1] == sep[0];
      } else if i + 1 < |a| + 1 + |sep| {
        assert s[i] == sep[i - |a| - 1] && s[i + 1] == sep[i - |a|];
      } else if i + 1 == |a| + 1 + |sep| {
        assert s[i] == sep[|sep| - 1];
      } else if i == |a| + 1 + |sep| {
        assert s[i + 1] == b[0];
      } else {
        assert s[i] == b[i - |a| - |sep| - 2] && s[i + 1] == b[i - |a| - |sep| - 1];
      }
    }
  }

  /** Two tidy non-empty strings joined by a non-empty string without spaces stay tidy. */
  lemma {:induction false} TidyJoinedBy(a: string, sep: string, b: string)
    requires Tidy(a) && a != [] && Tidy(b) && b != []
    requires sep != [] && forall k :: 0 <= k < |sep| ==> sep[k] != ' '
    ensures Tidy(a + sep + b)
  {
    var s := a + sep + b;
    forall i | 0 <= i < |s| - 1 ensures !(s[i] == ' ' && s[i + 1] == ' ') {
      if i < |a| {
        if i + 1 < |a| { assert s[i] == a[i] && s[i + 1] == a[i + 1]; }
        else { assert s[i + 1] == sep[0]; }
      } else if i < |a| + |sep| {
        assert s[i] == sep[i - |a|];
      } else {
        assert s[i] == b[i - |a| - |sep|] && s[i + 1] == b[i + 1 - |a| - |sep|];
      }
    }
  }

  /** Two tidy non-empty strings separated by one space stay tidy. */
  lemma TidyPair(a: string, b: string)
    requires Tidy(a) && a != [] && Tidy(b) && b != []
    ensures Tidy(a + " " + b)
  {
    var s := a + " " + b;
    forall i | 0 <= i < |s| - 1 ensures !(s[i] == ' ' && s[i + 1] == ' ') {
      if i + 1 < |a| {
        assert s[i] == a[i] && s[i + 1] == a[i + 1];
      } else if i + 1 == |a| {
        assert s[i] == a[|a| - 1];
      } else if i == |a| {
        assert s[i + 1] == b[0];
      } else {
        assert s[i] == b[i - |a| - 1] && s[i + 1] == b[i - |a|];
      }
    }
  }

  /** Every item is a non-empty tidy string. */
  /** A keyword of lower-case letters is a tidy word. */
  lemma TidyKeyword(w: string)
    requires forall i :: 0 <= i < |w| ==> 'a' <= w[i] <= 'z'
    ensures Tidy(w)
  {
  }

  predicate Words(xs: seq<string>)
  {
    forall k :: 0 <= k < |xs| ==> xs[k] != "" && Tidy(xs[k])
  }

  lemma {:induction false} TidyJoinComma(xs: seq<string>)
    requires Words(xs)
    ensures Tidy(Join(",", xs))
    ensures xs != [] ==> Join(",", xs) != ""
    decreases |xs|
  {
    if |xs| > 1 {
      TidyJoinComma(xs[1..]);
      TidyJoinedBy(xs[0], ",", Join(",", xs[1..]));
    }
  }

  lemma {:induction false} TidyJoinAnd(xs: seq<string>)
    requires Words(xs)
    ensures Tidy(Join(" and ", xs))
    ensures xs != [] ==> Join(" and ", xs) != ""
    decreases |xs|
  {
    if |xs| > 1 {
      TidyJoinAnd(xs[1..]);
      TidyConcat3(xs[0], "and", Join(" and ", xs[1..]));
      assert xs[0] + " and " + Join(" and ", xs[1..]) == xs[0] + " " + "and" + " " + Join(" and ", xs[1..]);
    }
  }

  /** A doubled space collapses like a single one. */
  lemma {:induction false} CollapseDoubleSpace(s: string, t: string)
    ensures CollapseSpaces(s + "  " + t) == CollapseSpaces(s + " " + t)
    decreases |s|
  {
    if s == [] {
      assert s + "  " + t == " " + (" " + t);
      assert s + " " + t == " " + t;
      CollapseLeadingSpaces(" " + t);
    } else {
      var x, y := s + "  " + t, s + " " + t;
      assert x[1..] == s[1..] + "  " + t;
      assert y[1..] == s[1..] + " " + t;
      CollapseDoubleSpace(s[1..], t);
      if |s| == 1 {
        assert x[1] == ' ' && y[1] == ' ';
      } else {
        assert x[1] == s[1] && y[1] == s[1];
      }
    }
  }

  // ---------------------------------------------------------------------------
  // Joining clause sections with single spaces
  // ---------------------------------------------------------------------------

  /** Keeps the non-empty strings, in order. */
  function NonEmpty(xs: seq<string>): (r: seq<string>)
    ensures forall k :: 0 <= k < |r| ==> r[k] != ""
    ensures |r| <= |xs|
  {
    if xs == [] then []
    else if xs[0] == "" then NonEmpty(xs[1..])
    else [xs[0]] + NonEmpty(xs[1..])
  }

  lemma {:induction false} NonEmptyAppend(a: seq<string>, b: seq<string>)
    ensures NonEmpty(a + b) == NonEmpty(a) + NonEmpty(b)
    decreases |a|
  {
    if a == [] {
      assert a + b == b;
    } else {
      assert (a + b)[0] == a[0];
      assert (a + b)[1..] == a[1..] + b;
      NonEmptyAppend(a[1..], b);
    }
  }

  lemma {:induction false} JoinAppend(sep: string, a: seq<string>, b: seq<string>)
    requires a != [] && b != []
    ensures Join(sep, a + b) == Join(sep, a) + sep + Join(sep, b)
    decreases |a|
  {
    if |a| == 1 {
      assert (a + b)[0] == a[0];
      assert (a + b)[1..] == b;
    } else {
      assert (a + b)[0] == a[0];
      assert (a + b)[1..] == a[1..] + b;
      JoinAppend(sep, a[1..], b);
    }
  }

  /** Each string preceded by one space: `Join(" ", [x] + xs) == x + Spaced(xs)`. */
  function Spaced(xs: seq<string>): string
  {
    if xs == [] then "" else " " + xs[0] + Spaced(xs[1..])
  }

  lemma {:induction false} JoinIsSpaced(x: string, xs: seq<string>)
    ensures Join(" ", [x] + xs) == x + Spaced(xs)
    decreases |xs|
  {
    if xs != [] {
      assert ([x] + xs)[1..] == xs;
      assert xs == [xs[0]] + xs[1..];
      JoinIsSpaced(xs[0], xs[1..]);
    }
  }

  /** The list with its trailing empty strings removed. */
  function TrimEmpty(xs: seq<string>): (r: seq<string>)
    ensures |r| <= |xs|
  {
    if xs == [] then [] else if xs[|xs| - 1] == "" then TrimEmpty(xs[..|xs| - 1]) else xs
  }

  lemma {:induction false} SpacedSnoc(xs: seq<string>, x: string)
    ensures Spaced(xs + [x]) == Spaced(xs) + " " + x
  {
    if xs == [] {
      assert [] + [x] == [x];
    } else {
      assert (xs + [x])[1..] == xs[1..] + [x];
      SpacedSnoc(xs[1..], x);
    }
  }

  lemma {:induction false} NonEmptySnocEmpty(xs: seq<string>)
    ensures NonEmpty(xs + [""]) == NonEmpty(xs)
  {
    if xs == [] {
      assert [] + [""] == [""];
    } else {
      assert (xs + [""])[1..] == xs[1..] + [""];
      NonEmptySnocEmpty(xs[1..]);
    }
  }

  /** Every section is tidy. */
  predicate AllTidy(xs: seq<string>)
  {
    xs == [] || (Tidy(xs[0]) && AllTidy(xs[1..]))
  }

  lemma {:induction false} AllTidyAt(xs: seq<string>, k: nat)
    requires AllTidy(xs) && k < |xs|
    ensures Tidy(xs[k])
  {
    if k > 0 { AllTidyAt(xs[1..], k - 1); }
  }

  lemma {:induction false} AllTidyInit(xs: seq<string>)
    requires AllTidy(xs) && xs != []
    ensures AllTidy(xs[..|xs| - 1])
  {
    if |xs| > 1 {
      assert xs[..|xs| - 1][1..] == xs[1..][..|xs[1..]| - 1];
      AllTidyInit(xs[1..]);
    }
  }

  lemma {:induction false} AllTidyAppend(xs: seq<string>, ys: seq<string>)
    requires AllTidy(xs) && AllTidy(ys)
    ensures AllTidy(xs + ys)
  {
    if xs == [] {
      assert xs + ys == ys;
    } else {
      assert (xs + ys)[1..] == xs[1..] + ys;
      AllTidyAppend(xs[1..], ys);
    }
  }

  lemma StripLeftKeeps(s: string)
    requires s != [] && !IsWhitespace(s[0])
    ensures StripLeft(s) == s
  {
  }

  lemma StripRightKeeps(s: string)
    requires s != [] && !IsWhitespace(s[|s| - 1])
    ensures StripRight(s) == s
  {
  }

  lemma TidyEnds(x: string)
    requires Tidy(x) && x != []
    ensures !IsWhitespace(x[0]) && !IsWhitespace(x[|x| - 1])
    ensures x[0] != ' ' && x[|x| - 1] != ' '
    ensures CollapseSpaces(x) == x
  {
    TidyCollapses(x);
  }

  /** Dropping trailing empty sections keeps the non-empty ones and tidiness. */
  lemma {:induction false} TrimEmptyFacts(xs: seq<string>)
    requires AllTidy(xs)
    ensures NonEmpty(TrimEmpty(xs)) == NonEmpty(xs)
    ensures TrimEmpty(xs) != [] ==> TrimEmpty(xs)[|TrimEmpty(xs)| - 1] != ""
    ensures AllTidy(TrimEmpty(xs))
    decreases |xs|
  {
    if xs != [] && xs[|xs| - 1] == "" {
      var init := xs[..|xs| - 1];
      assert xs == init + [""];
      AllTidyInit(xs);
      TrimEmptyFacts(init);
      NonEmptySnocEmpty(init);
    }
  }

  /** A trailing empty section contributes one separator, which stripping removes. */
  lemma StripSpacedSnocEmpty(x: string, init: seq<string>)
    requires Tidy(x) && x != []
    ensures Strip(x + Spaced(init + [""])) == Strip(x + Spaced(init))
  {
    TidyEnds(x);
    SpacedSnoc(init, "");
    var s' := x + Spaced(init);
    assert x + Spaced(init + [""]) == s' + " ";
    StripRightSpace(s');
  }

  /** Nothing is stripped when both ends are non-whitespace. */
  lemma StripSpacedKeeps(x: string, xs: seq<string>)
    requires x != [] && !IsWhitespace(x[0])
    requires xs != [] && xs[|xs| - 1] != "" && !IsWhitespace(xs[|xs| - 1][|xs[|xs| - 1]| - 1])
    ensures Strip(x + Spaced(xs)) == x + Spaced(xs)
  {
    var last := xs[|xs| - 1];
    var init := xs[..|xs| - 1];
    assert xs == init + [last];
    SpacedSnoc(init, last);
    var s := x + Spaced(xs);
    assert s[0] == x[0];
    StripLeftKeeps(s);
    assert s[|s| - 1] == last[|last| - 1];
    StripRightKeeps(s);
  }

  /** Stripping `x + Spaced(xs)` drops the separators that belong to trailing empty sections. */
  lemma {:induction false} StripSpaced(x: string, xs: seq<string>)
    requires Tidy(x) && x != []
    requires AllTidy(xs)
    ensures Strip(x + Spaced(xs)) == x + Spaced(TrimEmpty(xs))
    decreases |xs|
  {
    if xs == [] {
      TidyEnds(x);
      StripLeftKeeps(x);
      StripRightKeeps(x);
    } else if xs[|xs| - 1] == "" {
      var init := xs[..|xs| - 1];
      assert xs == init + [""];
      AllTidyInit(xs);
      StripSpaced(x, init);
      StripSpacedSnocEmpty(x, init);
    } else {
      AllTidyAt(xs, |xs| - 1);
      TidyEnds(x);
      TidyEnds(xs[|xs| - 1]);
      StripSpacedKeeps(x, xs);
    }
  }

  lemma CollapseSpacedEmpty(rest: seq<string>)
    requires Spaced(rest) != [] && Spaced(rest)[0] == ' '
    ensures CollapseSpaces(Spaced([""] + rest)) == CollapseSpaces(Spaced(rest))
  {
    assert ([""] + rest)[1..] == rest;
    assert Spaced([""] + rest) == " " + Spaced(rest);
    CollapseLeadingSpaces(Spaced(rest));
  }

  lemma CollapseSpacedSection(x: string, rest: seq<string>)
    requires x != [] && x[0] != ' ' && x[|x| - 1] != ' ' && CollapseSpaces(x) == x
    ensures CollapseSpaces(Spaced([x] + rest)) == " " + x + CollapseSpaces(Spaced(rest))
  {
    assert ([x] + rest)[1..] == rest;
    assert Spaced([x] + rest) == " " + (x + Spaced(rest));
    assert (x + Spaced(rest))[0] == x[0];
    CollapseSpaceThen(x + Spaced(rest));
    CollapseAppend(x, Spaced(rest));
  }

  /** Collapsing `Spaced(xs)` when every section is tidy and the last one is not empty. */
  lemma {:induction false} CollapseSpaced(xs: seq<string>)
    requires AllTidy(xs)
    requires xs != [] ==> xs[|xs| - 1] != ""
    ensures CollapseSpaces(Spaced(xs)) == Spaced(NonEmpty(xs))
    ensures xs != [] ==> Spaced(xs) != [] && Spaced(xs)[0] == ' '
    decreases |xs|
  {
    if xs != [] {
      var x, rest := xs[0], xs[1..];
      assert xs == [x] + rest;
      if rest != [] { assert rest[|rest| - 1] == xs[|xs| - 1]; }
      CollapseSpaced(rest);
      if x == "" {
        CollapseSpacedEmpty(rest);
        assert NonEmpty(xs) == NonEmpty(rest);
      } else {
        TidyEnds(x);
        CollapseSpacedSection(x, rest);
        assert NonEmpty(xs) == [x] + NonEmpty(rest);
        assert Spaced([x] + NonEmpty(rest)) == " " + x + Spaced(NonEmpty(rest)) by {
          assert ([x] + NonEmpty(rest))[1..] == NonEmpty(rest);
        }
      }
    }
  }

  /** The layout theorem for `re.sub(' +', ' ', fmt.format(...).strip())` where the template
      is tidy sections separated by single spaces and the first section is not empty:
      the result is the non-empty sections separated by single spaces. */
  lemma SectionsCollapse(x: string, xs: seq<string>)
    requires Tidy(x) && x != []
    requires AllTidy(xs)
    ensures CollapseSpaces(Strip(Join(" ", [x] + xs))) == Join(" ", [x] + NonEmpty(xs))
  {
    var ys := TrimEmpty(xs);
    assert Strip(Join(" ", [x] + xs)) == x + Spaced(ys) by {
      JoinIsSpaced(x, xs);
      StripSpaced(x, xs);
    }
    assert CollapseSpaces(Spaced(ys)) == Spaced(NonEmpty(xs)) by {
      TrimEmptyFacts(xs);
      CollapseSpaced(ys);
    }
    assert CollapseSpaces(x + Spaced(ys)) == x + CollapseSpaces(Spaced(ys)) by {
      TidyEnds(x);
      CollapseAppend(x, Spaced(ys));
    }
    JoinIsSpaced(x, NonEmpty(xs));
  }

  // ---------------------------------------------------------------------------
  // Backtick-prefixed name lists ("`a`b") and their inverse
  // ---------------------------------------------------------------------------

  /** `''.join(['`' + x for x in names])` */
  function Backticks(names: seq<string>): (r: string)
  {
    if names == [] then "" else "`" + names[0] + Backticks(names[1..])
  }

  predicate NoBacktick(s: string)
  {
    forall i :: 0 <= i < |s| ==> s[i] != '`'
  }

  /** Splits a string on '`' into the text before the first backtick and the rest. */
  function SplitFirst(s: string): (r: (string, string))
    ensures NoBacktick(r.0)
    ensures |r.1| <= |s|
  {
    if s == [] then ("", "")
    else if s[0] == '`' then ("", s)
    else var p := SplitFirst(s[1..]); ([s[0]] + p.0, p.1)
  }

  /** Reads back the names of a backtick-prefixed list. */
  function ParseBackticks(s: string): seq<string>
    decreases |s|
  {
    if s == [] || s[0] != '`' then []
    else
      var p := SplitFirst(s[1..]);
      [p.0] + ParseBackticks(p.1)
  }

  lemma {:induction false} SplitFirstOf(name: string, rest: string)
    requires NoBacktick(name)
    requires rest == [] || rest[0] == '`'
    ensures SplitFirst(name + rest) == (name, rest)
    decreases |name|
  {
    if name == [] {
      assert name + rest == rest;
    } else {
      assert (name + rest)[0] == name[0] != '`';
      assert (name + rest)[1..] == name[1..] + rest;
      assert NoBacktick(name[1..]) by {
        forall i | 0 <= i < |name[1..]| ensures name[1..][i] != '`' {
          assert name[1..][i] == name[i + 1];
        }
      }
      SplitFirstOf(name[1..], rest);
      assert [name[0]] + name[1..] == name;
    }
  }

  /** The backtick list is decodable: no name is lost, reordered or merged. */
  lemma {:induction false} BackticksRoundTrip(names: seq<string>)
    requires forall k :: 0 <= k < |names| ==> NoBacktick(names[k])
    ensures ParseBackticks(Backticks(names)) == names
    decreases |names|
  {
    if names != [] {
      var rest := Backticks(names[1..]);
      var s := "`" + names[0] + rest;
      assert s[1..] == names[0] + rest;
      assert rest == [] || rest[0] == '`';
      SplitFirstOf(names[0], rest);
      BackticksRoundTrip(names[1..]);
    }
  }

  lemma {:induction false} BackticksAppend(a: seq<string>, b: seq<string>)
    ensures Backticks(a + b) == Backticks(a) + Backticks(b)
  {
    if a != [] {
      assert (a + b)[1..] == a[1..] + b;
      BackticksAppend(a[1..], b);
    } else {
      assert a + b == b;
    }
  }

  /** The middle of a text between a fixed prefix and suffix determines it. */
  lemma MiddleDetermined(pre: string, a: string, b: string, post: string)
    requires pre + a + post == pre + b + post
    ensures a == b
  {
    assert |a| == |b|;
    assert a == (pre + a + post)[|pre|..|pre| + |a|];
    assert b == (pre + b + post)[|pre|..|pre| + |b|];
  }

  lemma AppendRegroup3(a: string, b: string, c: string)
    ensures a + b + c == a + (b + c)
  { }

  /** Regrouping an append of four pieces. */
  lemma AppendRegroup(a: string, b: string, c: string, d: string)
    ensures a + b + c + d == a + (b + c + d)
  { }

  lemma BackticksOne(x: string)
    ensures Backticks([x]) == "`" + x
  {
    assert [x][1..] == [];
  }

  /** Appending one name appends its backtick form. */
  lemma BackticksSnoc(xs: seq<string>, x: string)
    ensures Backticks(xs + [x]) == Backticks(xs) + "`" + x
  {
    BackticksAppend(xs, [x]);
    BackticksOne(x);
  }

  /** No occurrence of the character `c` in `s`. */
  predicate NoChar(s: string, c: char)
  {
    forall i :: 0 <= i < |s| ==> s[i] != c
  }

  /** The backtick list of names free of a character other than the backtick is free of it too. */
  lemma {:induction false} BackticksNoChar(names: seq<string>, c: char)
    requires c != '`'
    requires forall k :: 0 <= k < |names| ==> NoChar(names[k], c)
    ensures NoChar(Backticks(names), c)
    decreases |names|
  {
    if names != [] {
      BackticksNoChar(names[1..], c);
      var s := "`" + names[0] + Backticks(names[1..]);
      forall i | 0 <= i < |s| ensures s[i] != c {
        if 1 <= i < 1 + |names[0]| {
          assert s[i] == names[0][i - 1];
        } else if i >= 1 + |names[0]| {
          assert s[i] == Backticks(names[1..])[i - 1 - |names[0]|];
        }
      }
    }
  }

  /** `s.rfind(c)`: the position of the last occurrence of `c`, if any. */
  function LastIndexOf(s: string, c: char): (r: Option<nat>)
    ensures r.None? <==> NoChar(s, c)
    ensures r.Some? ==> r.value < |s| && s[r.value] == c
    ensures r.Some? ==> forall j :: r.value < j < |s| ==> s[j] != c
    decreases |s|
  {
    if s == [] then None
    else if s[|s| - 1] == c then Some(|s| - 1)
    else
      assert forall i :: 0 <= i < |s| - 1 ==> s[..|s| - 1][i] == s[i];
      LastIndexOf(s[..|s| - 1], c)
  }

  /** In `x + [c] + t` with no `c` in `t`, the last `c` is the one right after `x`. */
  lemma {:induction false} LastIndexAt(x: string, c: char, t: string)
    requires NoChar(t, c)
    ensures LastIndexOf(x + [c] + t, c) == Some(|x|)
    decreases |t|
  {
    var s := x + [c] + t;
    if t == [] {
      assert s == x + [c];
      assert s[|s| - 1] == c;
    } else {
      var t' := t[..|t| - 1];
      assert s[|s| - 1] == t[|t| - 1] != c;
      assert s[..|s| - 1] == x + [c] + t';
      assert NoChar(t', c) by {
        forall i | 0 <= i < |t'| ensures t'[i] != c {
          assert t'[i] == t[i];
        }
      }
      LastIndexAt(x, c, t');
    }
  }

  // ---------------------------------------------------------------------------
  // Numbers and case
  // ---------------------------------------------------------------------------

  function DigitChar(d: nat): (c: char)
    requires d < 10
    ensures '0' <= c <= '9'
  {
    ['0', '1', '2', '3', '4', '5', '6', '7', '8', '9'][d]
  }

  function NatToString(n: nat): (r: string)
    ensures r != []
    ensures forall i :: 0 <= i < |r| ==> '0' <= r[i] <= '9'
  {
    if n < 10 then [DigitChar(n)] else NatToString(n / 10) + [DigitChar(n % 10)]
  }

  /** Python's `str(n)` and `'%d' % n` for an int. */
  function IntToString(n: int): (r: string)
    ensures r != [] && Tidy(r)
    ensures NoBacktick(r)
  {
    var r := if n < 0 then "-" + NatToString(-n) else NatToString(n);
    assert forall i :: 0 <= i < |r| ==> r[i] == '-' || '0' <= r[i] <= '9';
    r
  }

  /** `str.lower()` on ASCII letters (other characters are kept). */
  function Lower(s: string): (r: string)
    ensures |r| == |s|
    ensures forall i :: 0 <= i < |s| ==> r[i] == (if 'A' <= s[i] <= 'Z' then (s[i] as int + 32) as char else s[i])
  {
    if s == [] then ""
    else [if 'A' <= s[0] <= 'Z' then (s[0] as int + 32) as char else s[0]] + Lower(s[1..])
  }

  lemma LowerKeeps(s: string)
    requires forall i :: 0 <= i < |s| ==> !('A' <= s[i] <= 'Z')
    ensures Lower(s) == s
  {
  }

  /** Lower-casing works character by character, so it distributes over concatenation. */
  lemma {:induction false} LowerAppend(a: string, b: string)
    ensures Lower(a + b) == Lower(a) + Lower(b)
    decreases |a|
  {
    if a == [] {
      assert a + b == b;
    } else {
      assert (a + b)[0] == a[0];
      assert (a + b)[1..] == a[1..] + b;
      LowerAppend(a[1..], b);
    }
  }

  lemma LowerSpace()
    ensures Lower(" ") == " "
  {
    var sp := Lower(" ");
    assert |sp| == 1 && sp[0] == ' ';
  }

  /** Lower-casing keeps the space between two texts. */
  lemma LowerSpaced(p: string, f: string)
    ensures Lower(p + " " + f) == Lower(p) + " " + Lower(f)
  {
    LowerSpace();
    LowerAppend(p + " ", f);
    LowerAppend(p, " ");
  }

  predicate OccursAt(s: string, pat: string, j: int)
  {
    0 <= j && j + |pat| <= |s| && s[j..j + |pat|] == pat
  }

  /** An occurrence that ends inside a prefix is an occurrence in the prefix. */
  lemma OccursInPrefix(s: string, t: string, pat: string, j: int)
    requires 0 <= j && j + |pat| <= |s|
    ensures OccursAt(s + t, pat, j) <==> OccursAt(s, pat, j)
  {
    assert (s + t)[j..j + |pat|] == s[j..j + |pat|];
  }

  /** `s.index(pat)`: the first position where pat occurs, None where Python raises ValueError. */
  function IndexOf(s: string, pat: string): (r: Option<nat>)
    ensures r.Some? ==> OccursAt(s, pat, r.value)
    ensures r.Some? ==> forall j :: 0 <= j < r.value ==> !OccursAt(s, pat, j)
    ensures r.None? ==> forall j :: !OccursAt(s, pat, j)
    decreases |s|
  {
    if |s| < |pat| then None
    else if s[..|pat|] == pat then Some(0)
    else match IndexOf(s[1..], pat)
      case None =>
        assert forall j :: OccursAt(s, pat, j) && j >= 1 ==> OccursAt(s[1..], pat, j - 1);
        None
      case Some(k) =>
        assert forall j :: OccursAt(s, pat, j) && j >= 1 ==> OccursAt(s[1..], pat, j - 1);
        Some(k + 1)
  }

  /** `sub in s` */
  predicate Contains(s: string, sub: string)
  {
    exists j :: 0 <= j <= |s| && OccursAt(s, sub, j)
  }
}
