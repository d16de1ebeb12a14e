/** What splitting a filter preserves: it undoes joining parenthesised terms, and on any
    filter at all the terms it returns join back to the filter and are clean. */
module FilterLaws {
  import opened Common
  import opened FilterSplit

  // ----- Splitting undoes joining -----

  ghost predicate AllWrapped(terms: seq<string>)
  {
    forall i :: 0 <= i < |terms| ==> Wrapped(terms[i])
  }

  // Scanning a wrapped term inside s: no separator in it, depth zero again behind it.
  lemma TermAt(s: string, from: nat, t: string)
    requires from + |t| <= |s| && s[from..from + |t|] == t && Wrapped(t) && At(s, from) == Outside
    ensures forall j :: from <= j < from + |t| ==> !SeparatorAt(s, j)
    ensures At(s, from + |t|) == Outside
  {
    WrappedBalanced(t);
    forall k | 0 <= k <= |t|
      ensures At(s, from + k) == At(t, k)
    {
      AtSlice(s, from, from + |t|, k);
    }
    forall j | from <= j < from + |t|
      ensures !SeparatorAt(s, j)
    {
      assert At(s, from + (j - from)) == At(t, j - from);
      if j > from {
        WrappedInside(t, j - from);
      } else {
        assert s[from] == t[0];
        if SeparatorAt(s, from) {
          SeparatorIsSpace(s, from);
        }
      }
    }
  }

  lemma SlicesOf(s: string, from: nat, t: string, tail: string)
    requires from <= |s| && s[from..] == t + AND + tail
    ensures var to := from + |t|;
            && to + |AND| <= |s|
            && s[from..to] == t && s[to..] == AND + tail && s[to + |AND|..] == tail
  {
  }

  lemma {:induction false} CutTerm(s: string, from: nat, t: string, tail: string)
    requires from <= |s| && s[from..] == t + AND + tail
    requires Wrapped(t) && At(s, from) == Outside
    ensures var next := from + |t| + |AND|;
            && next <= |s| && s[next..] == tail && At(s, next) == Outside
            && Cut(s, from) == Prepend([t], Cut(s, next))
  {
    var to := from + |t|;
    SlicesOf(s, from, t, tail);
    TermAt(s, from, t);
    assert HasWordAt(s, to, AND);
    CutHere(s, from, to);
  }

  lemma {:induction false} JoinedStep(s: string, from: nat, terms: seq<string>, next: nat)
    requires |terms| > 1 && AllWrapped(terms) && next == from + |terms[0]| + |AND|
    requires from <= |s| && s[from..] == Join(terms) && At(s, from) == Outside
    ensures next <= |s| && s[next..] == Join(terms[1..]) && At(s, next) == Outside && AllWrapped(terms[1..])
    ensures Cut(s, next) == Some(terms[1..]) ==> Cut(s, from) == Some(terms)
  {
    JoinHead(terms);
    CutTerm(s, from, terms[0], Join(terms[1..]));
    assert terms == [terms[0]] + terms[1..];
  }

  lemma {:induction false} CutJoined(s: string, from: nat, terms: seq<string>)
    requires terms != [] && AllWrapped(terms)
    requires from <= |s| && s[from..] == Join(terms) && At(s, from) == Outside
    ensures Cut(s, from) == Some(terms)
    decreases |terms|
  {
    if |terms| == 1 {
      CutLastTerm(s, from, terms[0]);
      assert terms == [terms[0]];
    } else {
      var next := from + |terms[0]| + |AND|;
      JoinedStep(s, from, terms, next);
      CutJoined(s, next, terms[1..]);
    }
  }

  lemma JoinHead(terms: seq<string>)
    requires |terms| > 1 && AllWrapped(terms)
    ensures Join(terms) == terms[0] + AND + Join(terms[1..]) && AllWrapped(terms[1..]) && Wrapped(terms[0])
  {
  }

  lemma CutLastTerm(s: string, from: nat, t: string)
    requires from <= |s| && s[from..] == t && Wrapped(t) && At(s, from) == Outside
    ensures Cut(s, from) == Some([t])
  {
    assert from + |t| == |s| && s[from..|s|] == t;
    TermAt(s, from, t);
    FirstSeparatorIs(s, from, |s|);
    CutStops(s, from);
  }

  lemma AndIsOutside()
    ensures At(AND, |AND|) == Outside && forall k :: 0 <= k <= |AND| ==> At(AND, k) == Outside
  {
    assert At(AND, 0) == Outside && At(AND, 1) == Outside && At(AND, 2) == Outside;
    assert At(AND, 3) == Outside && At(AND, 4) == Outside && At(AND, 5) == Outside;
  }

  lemma AppendBalanced(a: string, b: string)
    requires Balanced(a) && Balanced(b)
    ensures Balanced(a + b)
  {
    AtAppend(a, b, |b|);
    forall i | 0 <= i <= |a + b|
      ensures At(a + b, i).depth >= 0
    {
      if i <= |a| {
        AtPrefix(a, b, i);
      } else {
        AtAppend(a, b, i - |a|);
      }
    }
  }

  lemma {:induction false} JoinBalanced(terms: seq<string>)
    requires terms != [] && AllWrapped(terms)
    ensures var s := Join(terms);
            Balanced(s) && |s| >= 2 && s[0] == '(' && s[|s| - 1] == ')'
  {
    var t := terms[0];
    WrappedBalanced(t);
    if |terms| > 1 {
      JoinBalanced(terms[1..]);
      AndIsOutside();
      AppendBalanced(t, AND);
      AppendBalanced(t + AND, Join(terms[1..]));
    }
  }

  lemma TrimKeepsParens(s: string)
    requires |s| >= 2 && s[0] == '(' && s[|s| - 1] == ')'
    ensures TrimSpace(s) == s
  {
  }

  // A filter printed the way PostgreSQL prints a conjunction, each term in its own
  // parentheses and the whole in one more pair, splits into exactly its terms.
  lemma SplitUndoesJoin(terms: seq<string>)
    requires |terms| >= 2 && AllWrapped(terms)
    ensures SplitAnd("(" + Join(terms) + ")") == Some(terms)
  {
    var s := Join(terms);
    var w := "(" + s + ")";
    assert s[0..] == s;
    JoinBalanced(terms);
    CutJoined(s, 0, terms);
    TrimKeepsParens(w);
    TrimKeepsParens(s);
    WrappingWraps(s);
    assert w[1..|w| - 1] == s;
    JoinIsNotWrapped(terms);
    assert StripParens(w) == s;
  }

  lemma WrappingWraps(s: string)
    requires Balanced(s)
    ensures Wrapped("(" + s + ")")
  {
    var w := "(" + s + ")";
    assert At("(", 0) == Outside && At("(", 1) == Cursor(1, false);
    forall k | 0 <= k <= |s|
      ensures At(w, k + 1) == Cursor(1 + At(s, k).depth, At(s, k).quoted)
    {
      AtAppend("(", s, k);
      AtPrefix("(" + s, ")", k + 1);
    }
    assert At(w, |w| - 1) == Cursor(1, false);
    forall i | 0 <= i < |w| - 1
      ensures !ClosesAt(w, i)
    {
      assert At(w, i + 1) == Cursor(1 + At(s, i).depth, At(s, i).quoted);
    }
  }

  lemma JoinIsNotWrapped(terms: seq<string>)
    requires |terms| >= 2 && AllWrapped(terms)
    ensures !Wrapped(Join(terms))
  {
    var t, tail := terms[0], AND + Join(terms[1..]);
    assert Join(terms) == t + tail;
    WrappedBalanced(t);
    AtPrefix(t, tail, |t|);
    AtPrefix(t, tail, |t| - 1);
    WrappedInside(t, |t| - 1);
    assert Step(At(t, |t| - 1), t[|t| - 1]) == Outside;
    assert ClosesAt(t + tail, |t| - 1);
  }

  // ----- Joining undoes splitting -----

  // A term on its own: balanced, quotes closed, nothing left to split and no top-level OR.
  ghost predicate Clean(term: string)
  {
    Balanced(term) && forall k :: 0 <= k <= |term| ==> !SeparatorAt(term, k)
  }

  lemma {:induction false} AtSlice(s: string, from: nat, to: nat, k: nat)
    requires from + k <= to <= |s| && At(s, from) == Outside
    ensures At(s[from..to], k) == At(s, from + k)
  {
    if k > 0 {
      AtSlice(s, from, to, k - 1);
    }
  }

  lemma PrefixOfPrefix(a: string, b: string, c: string)
    requires b <= c
    ensures a <= b ==> a <= c
  {
  }

  lemma {:induction false} SliceClean(s: string, from: nat, to: nat)
    requires from <= to <= |s| && Balanced(s)
    requires At(s, from) == Outside && At(s, to) == Outside
    requires forall j :: from <= j < to ==> !SeparatorAt(s, j)
    ensures Clean(s[from..to])
  {
    var term := s[from..to];
    forall k | 0 <= k <= |term|
      ensures At(term, k) == At(s, from + k)
      ensures !SeparatorAt(term, k)
    {
      AtSlice(s, from, to, k);
      assert term[k..] == s[from + k..to] && s[from + k..to] <= s[from + k..];
      var outer := SeparatorAt(s, from + k);
      PrefixOfPrefix(OR, term[k..], s[from + k..]);
      PrefixOfPrefix(AND, term[k..], s[from + k..]);
      if SeparatorAt(term, k) {
        SeparatorIsSpace(term, k);
      }
    }
  }

  lemma {:induction false} CutRejoins(s: string, from: nat)
    requires from <= |s| && Balanced(s) && At(s, from) == Outside && Cut(s, from).Some?
    ensures var terms := Cut(s, from).value;
            && terms != []
            && Join(terms) == s[from..]
            && forall i :: 0 <= i < |terms| ==> Clean(terms[i])
    decreases |s| - from
  {
    var i := FirstSeparator(s, from);
    if i == |s| {
      assert s[from..] == s[from..|s|];
      SliceClean(s, from, |s|);
      CutStops(s, from);
    } else {
      CutAnd(s, from);
      SkipAnd(s, i);
      SliceClean(s, from, i);
      CutRejoins(s, i + |AND|);
      RejoinsAt(s, from, i, Cut(s, i + |AND|).value);
    }
  }

  lemma RejoinsAt(s: string, from: nat, i: nat, rest: seq<string>)
    requires from <= i && i + |AND| <= |s| && HasWordAt(s, i, AND)
    requires rest != [] && Join(rest) == s[i + |AND|..]
    ensures Join([s[from..i]] + rest) == s[from..]
  {
    var terms := [s[from..i]] + rest;
    assert terms[1..] == rest;
    assert s[i..i + |AND|] == AND by {
      assert s[i..][..|AND|] == AND;
    }
    assert s[from..] == s[from..i] + s[i..i + |AND|] + s[i + |AND|..];
  }

  // Whenever a filter is split at all, joining its terms gives the filter back, up to
  // the parentheses around the whole, and every term is clean.
  lemma JoinUndoesSplit(filter: string)
    requires SplitAnd(filter).Some?
    ensures var terms := SplitAnd(filter).value;
            && terms != []
            && Join(terms) == StripParens(TrimSpace(filter))
            && forall i :: 0 <= i < |terms| ==> Clean(terms[i])
  {
    var s := StripParens(TrimSpace(filter));
    CutRejoins(s, 0);
    assert s[0..] == s;
  }

  // ----- When splitting is refused -----

  predicate TopLevelOr(s: string, j: nat)
    requires j <= |s|
  {
    At(s, j) == Outside && HasWordAt(s, j, OR)
  }

  predicate TopLevelAnd(s: string, j: nat)
    requires j <= |s|
  {
    At(s, j) == Outside && HasWordAt(s, j, AND)
  }

  // The scan that starts at from does not look at position j: the leading space there
  // is the trailing one of an AND it did look at.
  predicate Swallowed(s: string, from: nat, j: nat)
    requires j <= |s|
    decreases j
  {
    j >= from + 4 && TopLevelAnd(s, j - 4) && !Swallowed(s, from, j - 4)
  }

  ghost predicate SeesOr(s: string, from: nat)
  {
    exists j :: from <= j <= |s| && TopLevelOr(s, j) && !Swallowed(s, from, j)
  }

  // Behind an AND at i, up to the next position the scan looks at.
  lemma BehindAnd(s: string, i: nat, j: nat)
    requires i < j <= |s| && j < i + 4 && HasWordAt(s, i, AND)
    ensures !SeparatorAt(s, j)
  {
    assert s[i..][j - i] == AND[j - i];
    assert s[j] != ' ';
    if SeparatorAt(s, j) {
      SeparatorIsSpace(s, j);
    }
  }

  // The first separator the scan meets is not swallowed.
  lemma FirstIsSeen(s: string, from: nat, i: nat)
    requires from <= i <= |s|
    requires forall k :: from <= k < i ==> !SeparatorAt(s, k)
    ensures !Swallowed(s, from, i)
  {
    if i >= from + 4 {
      assert !SeparatorAt(s, i - 4);
    }
  }

  // Cutting at the first separator does not change what is swallowed behind it.
  lemma {:induction false} SwallowedBehind(s: string, from: nat, i: nat, j: nat)
    requires from <= i && i + |AND| <= j <= |s| && TopLevelAnd(s, i)
    requires forall k :: from <= k < i ==> !SeparatorAt(s, k)
    ensures Swallowed(s, from, j) <==> Swallowed(s, i + |AND|, j)
    decreases j
  {
    FirstIsSeen(s, from, i);
    assert Swallowed(s, from, i + 4);
    if j - 4 >= i + |AND| {
      SwallowedBehind(s, from, i, j - 4);
    } else if j - 4 < i + 4 {
      BehindAnd(s, i, j - 4);
    }
  }

  lemma SeesOrBehind(s: string, from: nat, i: nat)
    requires from <= i && i + |AND| <= |s| && TopLevelAnd(s, i)
    requires forall k :: from <= k < i ==> !SeparatorAt(s, k)
    ensures SeesOr(s, from) <==> SeesOr(s, i + |AND|)
  {
    OrIsNotAnd(s, i);
    FirstIsSeen(s, from, i);
    assert Swallowed(s, from, i + 4);
    forall j | from <= j <= |s| && TopLevelOr(s, j)
      ensures Swallowed(s, from, j) <==> j < i + |AND| || Swallowed(s, i + |AND|, j)
    {
      assert SeparatorAt(s, j);
      if i < j < i + 4 {
        BehindAnd(s, i, j);
      } else if j >= i + |AND| {
        SwallowedBehind(s, from, i, j);
      }
    }
  }

  lemma NoOrBefore(s: string, from: nat)
    requires from <= |s| && forall j :: from <= j <= |s| ==> !SeparatorAt(s, j)
    ensures !SeesOr(s, from)
  {
    assert forall j :: from <= j <= |s| && TopLevelOr(s, j) ==> SeparatorAt(s, j);
  }

  lemma NothingAtEnd(s: string)
    ensures !SeparatorAt(s, |s|)
  {
  }

  lemma CutAtEnd(s: string, from: nat)
    requires from <= |s| && FirstSeparator(s, from) == |s|
    ensures Cut(s, from).Some? && !SeesOr(s, from)
  {
    CutStops(s, from);
    NothingAtEnd(s);
    NoOrBefore(s, from);
  }

  lemma CutAtOr(s: string, from: nat)
    requires from <= |s| && FirstSeparator(s, from) < |s| && HasWordAt(s, FirstSeparator(s, from), OR)
    ensures Cut(s, from) == None && SeesOr(s, from)
  {
    var i := FirstSeparator(s, from);
    CutStops(s, from);
    FirstIsSeen(s, from, i);
    assert TopLevelOr(s, i);
  }

  lemma {:induction false} CutAtAnd(s: string, from: nat, i: nat)
    requires from <= |s| && i == FirstSeparator(s, from) < |s| && !HasWordAt(s, i, OR)
    ensures i + |AND| <= |s| && TopLevelAnd(s, i)
    ensures Cut(s, from) == None <==> Cut(s, i + |AND|) == None
  {
    CutAnd(s, from);
  }

  // The cut from here fails exactly if the scan from here sees an OR.
  ghost predicate RefusesRightly(s: string, from: nat)
    requires from <= |s|
  {
    Cut(s, from) == None <==> SeesOr(s, from)
  }

  lemma RefusalStep(s: string, from: nat, i: nat)
    requires from <= |s| && i == FirstSeparator(s, from)
    ensures i == |s| || HasWordAt(s, i, OR) ==> RefusesRightly(s, from)
    ensures i < |s| && !HasWordAt(s, i, OR) ==>
      i + |AND| <= |s| && (RefusesRightly(s, i + |AND|) ==> RefusesRightly(s, from))
  {
    if i == |s| {
      CutAtEnd(s, from);
    } else if HasWordAt(s, i, OR) {
      CutAtOr(s, from);
    } else {
      CutAtAnd(s, from, i);
      SeesOrBehind(s, from, i);
    }
  }

  lemma {:induction false} CutRefusesExactly(s: string, from: nat)
    requires from <= |s|
    ensures RefusesRightly(s, from)
    decreases |s| - from
  {
    var i := FirstSeparator(s, from);
    RefusalStep(s, from, i);
    if i < |s| && !HasWordAt(s, i, OR) {
      CutRefusesExactly(s, i + |AND|);
    }
  }

  // Exactly which filters are not split: empty or unbalanced ones, and those with an OR
  // at the top level that is not directly behind an AND. Such an OR goes unnoticed.
  lemma RefusedExactly(filter: string)
    ensures var s := StripParens(TrimSpace(filter));
            SplitAnd(filter).None? <==> s == "" || !Balanced(s) || SeesOr(s, 0)
  {
    CutRefusesExactly(StripParens(TrimSpace(filter)), 0);
  }

  // ----- Where the scanner and SQL disagree -----

  // No character of s changes the scanner's state.
  ghost predicate Plain(s: string)
  {
    forall i :: 0 <= i < |s| ==> s[i] != '\'' && s[i] != '(' && s[i] != ')'
  }

  lemma {:induction false} PlainStaysOutside(s: string, n: nat)
    requires n <= |s| && Plain(s)
    ensures At(s, n) == Outside
  {
    if n > 0 {
      PlainStaysOutside(s, n - 1);
    }
  }

  // One separator, an AND at n: the filter is cut there, whatever the AND means.
  lemma CutOnce(s: string, n: nat)
    requires n <= |s| && At(s, n) == Outside && HasWordAt(s, n, AND)
    requires forall j :: 0 <= j < n ==> !SeparatorAt(s, j)
    requires forall j :: n + |AND| <= j < |s| ==> !SeparatorAt(s, j)
    ensures n + |AND| <= |s| && Cut(s, 0) == Some([s[..n], s[n + |AND|..]])
  {
    CutHere(s, 0, n);
    CutRest(s, n + |AND|);
    assert s[0..n] == s[..n];
    assert [s[..n]] + [s[n + |AND|..]] == [s[..n], s[n + |AND|..]];
  }

  lemma CutRest(s: string, from: nat)
    requires from <= |s| && forall j :: from <= j < |s| ==> !SeparatorAt(s, j)
    ensures Cut(s, from) == Some([s[from..]])
  {
    FirstSeparatorIs(s, from, |s|);
    CutStops(s, from);
  }

  lemma NotSpace(s: string, j: nat)
    requires j < |s| && s[j] != ' '
    ensures !SeparatorAt(s, j)
  {
    if SeparatorAt(s, j) {
      SeparatorIsSpace(s, j);
    }
  }

  lemma PlainIsBalanced(s: string)
    requires Plain(s)
    ensures Balanced(s)
  {
    forall n | 0 <= n <= |s|
      ensures At(s, n) == Outside
    {
      PlainStaysOutside(s, n);
    }
  }

  lemma PlainIsSplit(s: string)
    requires s != "" && Plain(s) && !IsSpace(s[0]) && !IsSpace(s[|s| - 1])
    ensures SplitAnd(s) == Cut(s, 0)
  {
    PlainIsBalanced(s);
    assert TrimLeft(s) == s && TrimRight(s) == s;
    assert s[0] != '(';
    assert StripParens(s) == s;
  }

  // Two pieces of plain text around an AND, the first without a space, the second without
  // a separator: the filter is cut between them, whatever they mean.
  lemma PairIsSplit(t: string, u: string)
    requires t != "" && u != "" && Plain(t) && Plain(u)
    requires forall j :: 0 <= j < |t| ==> !IsSpace(t[j])
    requires forall j :: 0 <= j < |u| ==> !HasWordAt(u, j, AND) && !HasWordAt(u, j, OR)
    requires !IsSpace(u[|u| - 1])
    ensures SplitAnd(t + AND + u) == Some([t, u])
  {
    var s := t + AND + u;
    PairPieces(s, t, u);
    PlainStaysOutside(s, |t|);
    forall j | 0 <= j < |t|
      ensures !SeparatorAt(s, j)
    {
      NotSpace(s, j);
    }
    CutOnce(s, |t|);
    PlainIsSplit(s);
  }

  lemma PairPieces(s: string, t: string, u: string)
    requires s == t + AND + u && t != "" && u != "" && Plain(t) && Plain(u)
    requires forall j :: 0 <= j < |u| ==> !HasWordAt(u, j, AND) && !HasWordAt(u, j, OR)
    ensures Plain(s) && HasWordAt(s, |t|, AND) && s[..|t|] == t && s[|t| + |AND|..] == u
    ensures forall j :: 0 <= j < |t| ==> s[j] == t[j]
    ensures s[|s| - 1] == u[|u| - 1]
    ensures forall j :: |t| + |AND| <= j < |s| ==> !SeparatorAt(s, j)
  {
    assert s[|t|..] == AND + u;
    forall j | |t| + |AND| <= j < |s|
      ensures !SeparatorAt(s, j)
    {
      var k := j - |t| - |AND|;
      assert s[j..] == u[k..];
      assert !HasWordAt(u, k, AND) && !HasWordAt(u, k, OR);
    }
  }

  // Only a space with at least three characters behind it can start a separator.
  lemma SeparatorRoom(u: string, j: nat)
    requires j < |u| && (u[j] != ' ' || j + 4 > |u|)
    ensures !HasWordAt(u, j, AND) && !HasWordAt(u, j, OR)
  {
    assert u[j..][0] == u[j];
  }

  // What trimming removes: blanks at both ends, and all of them.
  lemma {:induction false} TrimLeftMeans(s: string) returns (k: nat)
    ensures k <= |s| && TrimLeft(s) == s[k..]
    ensures (forall i :: 0 <= i < k ==> IsSpace(s[i])) && (k < |s| ==> !IsSpace(s[k]))
  {
    if s != "" && IsSpace(s[0]) {
      k := TrimLeftMeans(s[1..]);
      assert forall i :: 0 < i < k + 1 ==> s[i] == s[1..][i - 1];
      k := k + 1;
    } else {
      k := 0;
    }
  }

  lemma {:induction false} TrimRightMeans(s: string) returns (k: nat)
    ensures k <= |s| && TrimRight(s) == s[..k]
    ensures (forall i :: k <= i < |s| ==> IsSpace(s[i])) && (k > 0 ==> !IsSpace(s[k - 1]))
  {
    if s != "" && IsSpace(s[|s| - 1]) {
      k := TrimRightMeans(s[..|s| - 1]);
      assert s[..|s| - 1][..k] == s[..k];
    } else {
      k := |s|;
    }
  }

  lemma TrimMeans(s: string) returns (lo: nat, hi: nat)
    ensures lo <= hi <= |s| && TrimSpace(s) == s[lo..hi]
    ensures forall i :: 0 <= i < lo || hi <= i < |s| ==> IsSpace(s[i])
    ensures lo < hi ==> !IsSpace(s[lo]) && !IsSpace(s[hi - 1])
  {
    lo := TrimLeftMeans(s);
    var k := TrimRightMeans(s[lo..]);
    hi := lo + k;
    assert s[lo..][..k] == s[lo..hi];
    forall i | 0 <= i < lo || hi <= i < |s|
      ensures IsSpace(s[i])
    {
      assert i >= hi ==> s[i] == s[lo..][i - lo];
    }
  }

  lemma BlanksAre(c: char)
    ensures c == ' ' || c == '\t' || c == '\n' || c == '\r' ==> IsSpace(c)
    ensures '!' <= c <= '~' ==> !IsSpace(c)
  {
  }

  // An OR behind a piece of plain text without a space: refused.
  lemma PairIsRefused(t: string, u: string)
    requires t != "" && u != "" && Plain(t) && Plain(u) && !IsSpace(u[|u| - 1])
    requires forall j :: 0 <= j < |t| ==> !IsSpace(t[j])
    ensures SplitAnd(t + OR + u) == None
  {
    var s := t + OR + u;
    OrPieces(s, t, u);
    PlainStaysOutside(s, |t|);
    forall j | 0 <= j < |t|
      ensures !SeparatorAt(s, j)
    {
      NotSpace(s, j);
    }
    FirstSeparatorIs(s, 0, |t|);
    CutStops(s, 0);
    PlainIsSplit(s);
  }

  lemma OrPieces(s: string, t: string, u: string)
    requires s == t + OR + u && t != "" && u != "" && Plain(t) && Plain(u)
    ensures Plain(s) && HasWordAt(s, |t|, OR) && s[|s| - 1] == u[|u| - 1]
    ensures forall j :: 0 <= j < |t| ==> s[j] == t[j]
  {
    assert s[|t|..] == OR + u;
  }

  // The words that separate and refuse, in full.
  lemma AndSeparates(s: string)
    requires s == "a AND b"
    ensures SplitAnd(s) == Some(["a", "b"])
  {
    SeparatorRoom("b", 0);
    PairIsSplit("a", "b");
    assert "a" + AND + "b" == s;
  }

  lemma OrRefuses(s: string)
    requires s == "a OR b"
    ensures SplitAnd(s) == None
  {
    PairIsRefused("a", "b");
    assert "a" + OR + "b" == s;
  }

  // An OR that goes unnoticed: it shares its leading space with the AND before it.
  // PostgreSQL never prints two operators in a row.
  lemma HiddenOrIsSplit()
    ensures TopLevelOr("a" + AND + "OR b", 5)
    ensures SplitAnd("a" + AND + "OR b") == Some(["a", "OR b"])
  {
    var s := "a" + AND + "OR b";
    assert s[5..] == OR + "b";
    forall j | 0 <= j < 4
      ensures !HasWordAt("OR b", j, AND) && !HasWordAt("OR b", j, OR)
    {
      SeparatorRoom("OR b", j);
    }
    PairPieces(s, "a", "OR b");
    PlainStaysOutside(s, 5);
    PairIsSplit("a", "OR b");
  }

  // A name is split at the AND inside its double quotes, which the scanner does not track.
  lemma QuotedNameIsSplit()
    ensures SplitAnd("\"a" + AND + "b\"") == Some(["\"a", "b\""])
  {
    forall j | 0 <= j < 2
      ensures !HasWordAt("b\"", j, AND) && !HasWordAt("b\"", j, OR)
    {
      SeparatorRoom("b\"", j);
    }
    PairIsSplit("\"a", "b\"");
  }
}
