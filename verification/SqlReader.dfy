/** How a reader who knows SQL's quoted names splits a filter, and exactly when the scanner
    of internal/plans/plans.go, which does not track them, splits it alike. */
module SqlReader {
  import opened Common
  import opened FilterSplit
  import opened FilterLaws

  // ----- The reader -----

  // Inside a name nothing counts but its end.
  datatype SqlCursor = SqlCursor(depth: int, inText: bool, inName: bool)

  const SqlOutside := SqlCursor(0, false, false)

  function SqlStep(at: SqlCursor, c: char): SqlCursor
  {
    if at.inName then at.(inName := c != '"')
    else if at.inText then at.(inText := c != '\'')
    else if c == '"' then at.(inName := true)
    else if c == '\'' then at.(inText := true)
    else if c == '(' then at.(depth := at.depth + 1)
    else if c == ')' then at.(depth := at.depth - 1)
    else at
  }

  function SqlAt(s: string, n: nat): SqlCursor
    requires n <= |s|
  {
    if n == 0 then SqlOutside else SqlStep(SqlAt(s, n - 1), s[n - 1])
  }

  ghost predicate SqlBalanced(s: string)
  {
    SqlAt(s, |s|) == SqlOutside && forall i :: 0 <= i <= |s| ==> SqlAt(s, i).depth >= 0
  }

  predicate SqlClosesAt(s: string, i: nat)
    requires i < |s|
  {
    s[i] == ')' && !SqlAt(s, i).inText && !SqlAt(s, i).inName && SqlAt(s, i + 1).depth == 0
  }

  ghost predicate SqlWrapped(s: string)
  {
    && |s| >= 2 && s[0] == '(' && s[|s| - 1] == ')'
    && SqlAt(s, |s|).depth == 0
    && forall i :: 0 <= i < |s| - 1 ==> !SqlClosesAt(s, i)
  }

  ghost function SqlStrip(s: string): string
    decreases |s|
  {
    if SqlWrapped(s) then SqlStrip(TrimSpace(s[1..|s| - 1])) else s
  }

  predicate SqlSeparatorAt(s: string, i: nat)
    requires i <= |s|
  {
    SqlAt(s, i) == SqlOutside && (HasWordAt(s, i, OR) || HasWordAt(s, i, AND))
  }

  function SqlFirstSeparator(s: string, from: nat): (i: nat)
    requires from <= |s|
    ensures from <= i <= |s|
    ensures i < |s| ==> SqlSeparatorAt(s, i)
    ensures forall j :: from <= j < i ==> !SqlSeparatorAt(s, j)
    decreases |s| - from
  {
    if from == |s| || SqlSeparatorAt(s, from) then from else SqlFirstSeparator(s, from + 1)
  }

  function SqlCut(s: string, from: nat): Option<seq<string>>
    requires from <= |s|
    decreases |s| - from
  {
    var i := SqlFirstSeparator(s, from);
    if i == |s| then Some([s[from..]])
    else if HasWordAt(s, i, OR) then None
    else
      assert |s[i..]| >= |AND|;
      match SqlCut(s, i + |AND|)
      case None => None
      case Some(rest) => Some([s[from..i]] + rest)
  }

  // How the reader splits a filter.
  ghost function SqlSplit(filter: string): Option<seq<string>>
  {
    var s := SqlStrip(TrimSpace(filter));
    if s == "" || !SqlBalanced(s) then None else SqlCut(s, 0)
  }

  // ----- When the two keep the same state -----

  predicate InStep(s: string, n: nat)
    requires n <= |s|
  {
    At(s, n) == Cursor(SqlAt(s, n).depth, SqlAt(s, n).inText)
  }

  predicate Delimiter(c: char)
  {
    c == '\'' || c == '(' || c == ')'
  }

  // No character inside a name is one the scanner counts.
  ghost predicate NamesAreQuiet(s: string)
  {
    forall i :: 0 <= i < |s| ==> QuietAt(s, i)
  }

  predicate QuietAt(s: string, i: nat)
    requires i < |s|
  {
    SqlAt(s, i).inName ==> !Delimiter(s[i])
  }

  lemma {:induction false} NeverBoth(s: string, n: nat)
    requires n <= |s|
    ensures !(SqlAt(s, n).inText && SqlAt(s, n).inName)
  {
    if n > 0 {
      NeverBoth(s, n - 1);
    }
  }

  lemma {:induction false} QuietIsInStep(s: string, n: nat)
    requires n <= |s| && NamesAreQuiet(s)
    ensures InStep(s, n)
  {
    if n > 0 {
      QuietIsInStep(s, n - 1);
      assert QuietAt(s, n - 1);
      NeverBoth(s, n - 1);
    }
  }

  // The scanner keeps the reader's depth and text state all through a filter if and only
  // if its quoted names hold no quote and no parenthesis.
  lemma InStepExactly(s: string)
    ensures (forall n :: 0 <= n <= |s| ==> InStep(s, n)) <==> NamesAreQuiet(s)
  {
    if NamesAreQuiet(s) {
      forall n | 0 <= n <= |s|
        ensures InStep(s, n)
      {
        QuietIsInStep(s, n);
      }
    } else {
      var i :| 0 <= i < |s| && !QuietAt(s, i);
      NeverBoth(s, i);
      assert InStep(s, i) ==> !InStep(s, i + 1);
    }
  }

  // ----- When the two cut alike -----

  // An AND or an OR inside a name outside all parentheses.
  predicate InnerWordAt(s: string, i: nat)
    requires i <= |s|
  {
    && SqlAt(s, i).inName && SqlAt(s, i).depth == 0
    && (HasWordAt(s, i, OR) || HasWordAt(s, i, AND))
  }

  ghost predicate SomeInnerWord(s: string, from: nat)
  {
    exists i :: from <= i < |s| && InnerWordAt(s, i)
  }

  // The scanner's separators are the reader's and the words inside names.
  lemma ScannerSeparators(s: string, i: nat)
    requires i <= |s| && NamesAreQuiet(s)
    ensures SeparatorAt(s, i) <==> SqlSeparatorAt(s, i) || InnerWordAt(s, i)
    ensures !(SqlSeparatorAt(s, i) && InnerWordAt(s, i))
  {
    QuietIsInStep(s, i);
    NeverBoth(s, i);
  }

  // Reading an AND changes nothing.
  lemma AndKeepsState(s: string, i: nat)
    requires i <= |s| && HasWordAt(s, i, AND)
    ensures i + |AND| <= |s|
    ensures forall j :: i <= j <= i + |AND| ==> SqlAt(s, j) == SqlAt(s, i)
  {
    assert |s[i..]| >= |AND|;
    assert s[i] == AND[0] && s[i + 1] == AND[1] && s[i + 2] == AND[2] && s[i + 3] == AND[3] && s[i + 4] == AND[4];
    assert SqlAt(s, i + 1) == SqlAt(s, i) && SqlAt(s, i + 2) == SqlAt(s, i);
    assert SqlAt(s, i + 3) == SqlAt(s, i) && SqlAt(s, i + 4) == SqlAt(s, i);
  }

  lemma {:induction false} SqlFirstSeparatorIs(s: string, from: nat, i: nat)
    requires from <= i <= |s|
    requires forall j :: from <= j < i ==> !SqlSeparatorAt(s, j)
    ensures SqlFirstSeparator(s, from) == SqlFirstSeparator(s, i)
    decreases i - from
  {
    if from < i {
      SqlFirstSeparatorIs(s, from + 1, i);
    }
  }

  // The scanner stops at the reader's next separator, or before it at a word in a name.
  lemma ScannerStops(s: string, from: nat)
    requires from <= |s| && NamesAreQuiet(s)
    ensures var i := FirstSeparator(s, from);
            && i <= SqlFirstSeparator(s, from)
            && (i == SqlFirstSeparator(s, from) || InnerWordAt(s, i))
            && !(SqlSeparatorAt(s, i) && InnerWordAt(s, i))
            && forall j :: from <= j < i ==> !InnerWordAt(s, j)
  {
    var i, i' := FirstSeparator(s, from), SqlFirstSeparator(s, from);
    forall j | from <= j <= i || j == i'
      ensures SeparatorAt(s, j) <==> SqlSeparatorAt(s, j) || InnerWordAt(s, j)
      ensures !(SqlSeparatorAt(s, j) && InnerWordAt(s, j))
    {
      ScannerSeparators(s, j);
    }
  }

  lemma SqlCutAnd(s: string, from: nat)
    requires from <= |s| && SqlFirstSeparator(s, from) < |s| && !HasWordAt(s, SqlFirstSeparator(s, from), OR)
    ensures var i := SqlFirstSeparator(s, from);
            && i + |AND| <= |s|
            && SqlCut(s, from) == Prepend([s[from..i]], SqlCut(s, i + |AND|))
  {
  }

  // The scanner's cut is the reader's, or the reader refuses; inner says whether a word
  // inside a name lies ahead.
  predicate Alike(cut: Option<seq<string>>, sqlCut: Option<seq<string>>, inner: bool)
  {
    cut == sqlCut <==> sqlCut.None? || !inner
  }

  lemma AlikeBehind(term: string, cut: Option<seq<string>>, sqlCut: Option<seq<string>>, inner: bool,
                    all: Option<seq<string>>, sqlAll: Option<seq<string>>)
    requires Alike(cut, sqlCut, inner)
    requires all == Prepend([term], cut) && sqlAll == Prepend([term], sqlCut)
    ensures Alike(all, sqlAll, inner)
  {
    if cut.Some? && sqlCut.Some? && all == sqlAll {
      assert ([term] + cut.value)[1..] == cut.value && ([term] + sqlCut.value)[1..] == sqlCut.value;
    }
  }

  lemma SqlRefusesFrom(s: string, from: nat, j: nat)
    requires from <= j <= |s| && SqlFirstSeparator(s, from) == SqlFirstSeparator(s, j)
    ensures SqlCut(s, from).None? <==> SqlCut(s, j).None?
  {
  }

  // At the reader's own AND both go on behind it.
  lemma CutBoth(s: string, from: nat, i: nat)
    requires from <= i && i + |AND| <= |s| && NamesAreQuiet(s)
    requires i == FirstSeparator(s, from) && HasWordAt(s, i, AND) && !HasWordAt(s, i, OR) && !InnerWordAt(s, i)
    ensures Cut(s, from) == Prepend([s[from..i]], Cut(s, i + |AND|))
    ensures SqlCut(s, from) == Prepend([s[from..i]], SqlCut(s, i + |AND|))
  {
    ScannerStops(s, from);
    CutAnd(s, from);
    SqlCutAnd(s, from);
  }

  lemma InnerWordsBehind(s: string, from: nat, i: nat)
    requires from <= i < |s| && NamesAreQuiet(s)
    requires i == FirstSeparator(s, from) && !InnerWordAt(s, i) && HasWordAt(s, i, AND)
    ensures i + |AND| <= |s|
    ensures SomeInnerWord(s, from) <==> SomeInnerWord(s, i + |AND|)
  {
    AndKeepsState(s, i);
    ScannerStops(s, from);
    forall j | from <= j < i + |AND|
      ensures !InnerWordAt(s, j)
    {
      if j >= i {
        assert SqlAt(s, j) == SqlAt(s, i) == SqlOutside;
      }
    }
  }

  // At a word inside a name only the scanner cuts.
  lemma CutAlone(s: string, from: nat, i: nat)
    requires from <= i && i + |AND| <= |s| && NamesAreQuiet(s)
    requires i == FirstSeparator(s, from) && InnerWordAt(s, i) && HasWordAt(s, i, AND)
    requires Alike(Cut(s, i + |AND|), SqlCut(s, i + |AND|), SomeInnerWord(s, i + |AND|))
    ensures Alike(Cut(s, from), SqlCut(s, from), true)
  {
    ReaderGoesOn(s, from, i);
    SqlRefusesFrom(s, from, i + |AND|);
    OrIsNotAnd(s, i);
    CutAnd(s, from);
    ScannerStops(s, from);
    CutsApart(s, from, i);
  }

  lemma ReaderGoesOn(s: string, from: nat, i: nat)
    requires from <= i && i + |AND| <= |s| && NamesAreQuiet(s)
    requires i == FirstSeparator(s, from) && InnerWordAt(s, i) && HasWordAt(s, i, AND)
    ensures SqlFirstSeparator(s, from) == SqlFirstSeparator(s, i + |AND|) > i
  {
    AndKeepsState(s, i);
    ScannerStops(s, from);
    forall j | from <= j < i + |AND|
      ensures !SqlSeparatorAt(s, j)
    {
      if j >= i {
        assert SqlAt(s, j) == SqlAt(s, i);
      }
    }
    SqlFirstSeparatorIs(s, from, i + |AND|);
  }

  lemma CutsApart(s: string, from: nat, i: nat)
    requires from <= i < |s| && i == FirstSeparator(s, from) && i < SqlFirstSeparator(s, from)
    ensures SqlCut(s, from).Some? ==> Cut(s, from) != SqlCut(s, from)
  {
    if Cut(s, from).Some? && SqlCut(s, from).Some? {
      assert Cut(s, from).value[0] == s[from..i];
      assert SqlCut(s, from).value[0] == s[from..SqlFirstSeparator(s, from)];
    }
  }

  lemma CutsNothing(s: string, from: nat)
    requires from <= |s| && NamesAreQuiet(s) && FirstSeparator(s, from) == |s|
    ensures Alike(Cut(s, from), SqlCut(s, from), SomeInnerWord(s, from))
  {
    ScannerStops(s, from);
    CutStops(s, from);
    assert SqlFirstSeparator(s, from) == |s|;
  }

  lemma CutsNoMore(s: string, from: nat)
    requires from <= |s| && NamesAreQuiet(s)
    requires FirstSeparator(s, from) < |s| && HasWordAt(s, FirstSeparator(s, from), OR)
    ensures Alike(Cut(s, from), SqlCut(s, from), SomeInnerWord(s, from))
  {
    ScannerStops(s, from);
    CutStops(s, from);
  }

  // The scanner cuts where the reader does if and only if the reader refuses, and then so
  // does the scanner, or no name outside parentheses holds an AND or an OR.
  lemma {:induction false} CutsAlikeExactly(s: string, from: nat)
    requires from <= |s| && NamesAreQuiet(s)
    ensures Alike(Cut(s, from), SqlCut(s, from), SomeInnerWord(s, from))
    decreases |s| - from
  {
    if GoesOn(s, from) {
      ElseAnd(s, from);
      CutsAlikeExactly(s, FirstSeparator(s, from) + |AND|);
      CutsOn(s, from);
    } else {
      CutsEnd(s, from);
    }
  }

  lemma CutsEnd(s: string, from: nat)
    requires from <= |s| && NamesAreQuiet(s) && !GoesOn(s, from)
    ensures Alike(Cut(s, from), SqlCut(s, from), SomeInnerWord(s, from))
  {
    if FirstSeparator(s, from) == |s| {
      CutsNothing(s, from);
    } else {
      CutsNoMore(s, from);
    }
  }

  // The scanner's next separator is an AND.
  predicate GoesOn(s: string, from: nat)
    requires from <= |s|
  {
    FirstSeparator(s, from) < |s| && !HasWordAt(s, FirstSeparator(s, from), OR)
  }

  lemma ElseAnd(s: string, from: nat)
    requires from <= |s| && GoesOn(s, from)
    ensures var i := FirstSeparator(s, from);
            i + |AND| <= |s| && HasWordAt(s, i, AND)
  {
    AndKeepsState(s, FirstSeparator(s, from));
  }

  lemma CutsOn(s: string, from: nat)
    requires from <= |s| && NamesAreQuiet(s) && GoesOn(s, from)
    requires var next := FirstSeparator(s, from) + |AND|;
             next <= |s| && Alike(Cut(s, next), SqlCut(s, next), SomeInnerWord(s, next))
    ensures Alike(Cut(s, from), SqlCut(s, from), SomeInnerWord(s, from))
  {
    var i := FirstSeparator(s, from);
    ElseAnd(s, from);
    if InnerWordAt(s, i) {
      CutAlone(s, from, i);
    } else {
      CutBoth(s, from, i);
      InnerWordsBehind(s, from, i);
      AlikeBehind(s[from..i], Cut(s, i + |AND|), SqlCut(s, i + |AND|), SomeInnerWord(s, from), Cut(s, from), SqlCut(s, from));
    }
  }

  // ----- When the two split a filter alike -----

  // Quiet names, the last of them closed.
  ghost predicate NamesAreClean(s: string)
  {
    NamesAreQuiet(s) && !SqlAt(s, |s|).inName
  }

  // Reading a piece of s that starts outside text and names is reading it alone.
  lemma {:induction false} SqlAtPiece(s: string, a: nat, b: nat, k: nat)
    requires a <= b <= |s| && k <= b - a
    requires !SqlAt(s, a).inText && !SqlAt(s, a).inName
    ensures SqlAt(s[a..b], k) == SqlAt(s, a + k).(depth := SqlAt(s, a + k).depth - SqlAt(s, a).depth)
  {
    if k > 0 {
      SqlAtPiece(s, a, b, k - 1);
      assert s[a..b][k - 1] == s[a + k - 1];
    }
  }

  lemma PieceIsClean(s: string, a: nat, b: nat)
    requires a <= b <= |s| && NamesAreQuiet(s)
    requires !SqlAt(s, a).inText && !SqlAt(s, a).inName && !SqlAt(s, b).inName
    ensures NamesAreClean(s[a..b])
  {
    var t := s[a..b];
    forall k | 0 <= k <= |t|
      ensures SqlAt(t, k).inName <==> SqlAt(s, a + k).inName
    {
      SqlAtPiece(s, a, b, k);
    }
    forall k | 0 <= k < |t|
      ensures QuietAt(t, k)
    {
      assert QuietAt(s, a + k) && t[k] == s[a + k];
    }
  }

  lemma {:induction false} TrimLeftIsClean(s: string)
    requires NamesAreClean(s)
    ensures NamesAreClean(TrimLeft(s))
  {
    if s != "" && IsSpace(s[0]) {
      assert SqlAt(s, 1) == SqlStep(SqlOutside, s[0]) == SqlOutside;
      PieceIsClean(s, 1, |s|);
      assert s[1..|s|] == s[1..];
      TrimLeftIsClean(s[1..]);
    }
  }

  lemma SpaceKeepsName(s: string)
    requires s != "" && IsSpace(s[|s| - 1])
    ensures SqlAt(s, |s|).inName == SqlAt(s, |s| - 1).inName
  {
    assert SqlAt(s, |s|) == SqlStep(SqlAt(s, |s| - 1), s[|s| - 1]);
  }

  lemma CutLastIsClean(s: string)
    requires s != "" && IsSpace(s[|s| - 1]) && NamesAreClean(s)
    ensures NamesAreClean(s[..|s| - 1])
  {
    SpaceKeepsName(s);
    PieceIsClean(s, 0, |s| - 1);
    assert s[0..|s| - 1] == s[..|s| - 1];
  }

  lemma {:induction false} TrimRightIsClean(s: string)
    requires NamesAreClean(s)
    ensures NamesAreClean(TrimRight(s))
  {
    if s != "" && IsSpace(s[|s| - 1]) {
      CutLastIsClean(s);
      TrimRightIsClean(s[..|s| - 1]);
    }
  }

  lemma TrimIsClean(s: string)
    requires NamesAreClean(s)
    ensures NamesAreClean(TrimSpace(s))
  {
    TrimLeftIsClean(s);
    TrimRightIsClean(TrimLeft(s));
  }

  lemma WrapsAlike(s: string)
    requires NamesAreQuiet(s)
    ensures Wrapped(s) <==> SqlWrapped(s)
  {
    InStepExactly(s);
    forall i | 0 <= i < |s|
      ensures ClosesAt(s, i) <==> SqlClosesAt(s, i)
    {
      assert QuietAt(s, i) && InStep(s, i) && InStep(s, i + 1);
    }
    assert InStep(s, |s|);
  }

  // Both strip the same parentheses, and what is left has clean names again.
  lemma {:induction false} StripsAlike(s: string)
    requires NamesAreClean(s)
    ensures SqlStrip(s) == StripParens(s) && NamesAreClean(StripParens(s))
    decreases |s|
  {
    WrapsAlike(s);
    if Wrapped(s) {
      var inner := s[1..|s| - 1];
      assert SqlAt(s, 1) == SqlStep(SqlOutside, '(');
      assert QuietAt(s, |s| - 1) && Delimiter(s[|s| - 1]);
      PieceIsClean(s, 1, |s| - 1);
      TrimIsClean(inner);
      StripsAlike(TrimSpace(inner));
    }
  }

  lemma BalancesAlike(s: string)
    requires NamesAreClean(s)
    ensures Balanced(s) <==> SqlBalanced(s)
  {
    InStepExactly(s);
    assert InStep(s, |s|);
    forall i | 0 <= i <= |s|
      ensures At(s, i).depth == SqlAt(s, i).depth
    {
      assert InStep(s, i);
    }
  }

  // Whatever names a filter quotes, as long as they hold no quote and no parenthesis: the
  // scanner splits it as the reader does if and only if the reader refuses it, or no name
  // outside the parentheses that are left holds an AND or an OR.
  lemma SplitsLikeSqlExactly(filter: string)
    requires NamesAreClean(filter)
    ensures SplitAnd(filter) == SqlSplit(filter) <==>
            SqlSplit(filter).None? || !SomeInnerWord(SqlStrip(TrimSpace(filter)), 0)
  {
    var s := SqlStrip(TrimSpace(filter));
    TrimIsClean(filter);
    StripsAlike(TrimSpace(filter));
    BalancesAlike(s);
    CutsAlikeExactly(s, 0);
  }

  // The reader leaves a name whole that the scanner cuts at the AND inside it.
  lemma NameIsCutApart()
    ensures var filter := "\"a" + AND + "b\"";
            SqlSplit(filter) == Some([filter]) && SplitAnd(filter) != SqlSplit(filter)
  {
    var filter := "\"a" + AND + "b\"";
    assert filter == "\"a AND b\"";
    InsideName(filter);
    QuotedNameIsSplit();
  }

  lemma InsideName(s: string)
    requires s == "\"a AND b\""
    ensures SqlSplit(s) == Some([s])
  {
    var inside := SqlCursor(0, false, true);
    assert SqlAt(s, 1) == inside;
    assert SqlAt(s, 2) == inside && SqlAt(s, 3) == inside;
    assert SqlAt(s, 4) == inside && SqlAt(s, 5) == inside;
    assert SqlAt(s, 6) == inside && SqlAt(s, 7) == inside;
    assert SqlAt(s, 8) == inside;
    assert SqlAt(s, 9) == SqlOutside;
    assert TrimLeft(s) == s && TrimRight(s) == s && SqlStrip(s) == s;
    SqlFirstSeparatorIs(s, 0, 9);
  }
}
