/** Cutting a scan filter at its outermost ANDs (internal/plans/plans.go): a
    scanner that tracks parenthesis depth and single-quote state. Text is a sequence of
    characters; every delimiter is one character of it. */
module FilterSplit {
  import opened Common

  const AND := " AND "
  const OR := " OR "

  // ----- Trimming -----

  // unicode.IsSpace
  predicate IsSpace(c: char)
  {
    || c in "\t\n\r "
    || c as int in {0x0B, 0x0C, 0x85, 0xA0, 0x1680, 0x2028, 0x2029, 0x202F, 0x205F, 0x3000}
    || 0x2000 <= c as int <= 0x200A
  }

  function TrimLeft(s: string): string
  {
    if s != "" && IsSpace(s[0]) then TrimLeft(s[1..]) else s
  }

  function TrimRight(s: string): string
  {
    if s != "" && IsSpace(s[|s| - 1]) then TrimRight(s[..|s| - 1]) else s
  }

  function TrimSpace(s: string): (t: string)
    ensures |t| <= |s|
  {
    TrimLeftShrinks(s);
    TrimRightShrinks(TrimLeft(s));
    TrimRight(TrimLeft(s))
  }

  lemma TrimLeftShrinks(s: string)
    ensures |TrimLeft(s)| <= |s|
  {
  }

  lemma TrimRightShrinks(s: string)
    ensures |TrimRight(s)| <= |s|
  {
  }

  // ----- The scanner's state -----

  datatype Cursor = Cursor(depth: int, quoted: bool)

  const Outside := Cursor(0, false)

  function Step(at: Cursor, c: char): Cursor
  {
    if c == '\'' then at.(quoted := !at.quoted)
    else if at.quoted then at
    else if c == '(' then at.(depth := at.depth + 1)
    else if c == ')' then at.(depth := at.depth - 1)
    else at
  }

  // The state in front of s[n].
  function At(s: string, n: nat): Cursor
    requires n <= |s|
  {
    if n == 0 then Outside else Step(At(s, n - 1), s[n - 1])
  }

  // Scanning b behind a is scanning b alone, at a's depth.
  lemma {:induction false} AtAppend(a: string, b: string, k: nat)
    requires k <= |b| && !At(a, |a|).quoted
    ensures At(a + b, |a| + k) == Cursor(At(a, |a|).depth + At(b, k).depth, At(b, k).quoted)
  {
    if k == 0 {
      AtPrefix(a, b, |a|);
    } else {
      AtAppend(a, b, k - 1);
      assert (a + b)[|a| + k - 1] == b[k - 1];
    }
  }

  lemma {:induction false} AtPrefix(a: string, b: string, k: nat)
    requires k <= |a|
    ensures At(a + b, k) == At(a, k)
  {
    if k > 0 {
      AtPrefix(a, b, k - 1);
    }
  }

  // Quotes closed, every parenthesis matched.
  ghost predicate Balanced(s: string)
  {
    At(s, |s|) == Outside && forall i :: 0 <= i <= |s| ==> At(s, i).depth >= 0
  }

  // ----- Parentheses around the whole expression -----

  // Nothing closes the first parenthesis before the last character does.
  ghost predicate Wraps(s: string)
  {
    && At(s, |s|).depth == 0
    && forall i :: 0 <= i < |s| - 1 ==> !ClosesAt(s, i)
  }

  predicate ClosesAt(s: string, i: nat)
    requires i < |s|
  {
    s[i] == ')' && !At(s, i).quoted && At(s, i + 1).depth == 0
  }

  ghost predicate Wrapped(s: string)
  {
    |s| >= 2 && s[0] == '(' && s[|s| - 1] == ')' && Wraps(s)
  }

  ghost function StripParens(s: string): (t: string)
    ensures |t| <= |s|
    ensures !Wrapped(t)
    decreases |s|
  {
    if Wrapped(s) then StripParens(TrimSpace(s[1..|s| - 1])) else s
  }

  // Inside a wrapped expression the scanner never comes back to depth zero.
  lemma {:induction false} WrappedInside(s: string, k: nat)
    requires Wrapped(s) && 0 < k < |s|
    ensures At(s, k).depth >= 1
  {
    assert At(s, 0) == Outside && At(s, 1) == Cursor(1, false);
    if k > 1 {
      WrappedInside(s, k - 1);
      assert !ClosesAt(s, k - 1);
    }
  }

  lemma WrappedBalanced(s: string)
    requires Wrapped(s)
    ensures Balanced(s)
  {
    WrappedInside(s, |s| - 1);
    forall i | 0 <= i <= |s|
      ensures At(s, i).depth >= 0
    {
      if 0 < i < |s| {
        WrappedInside(s, i);
      }
    }
  }

  method CheckWraps(s: string) returns (ok: bool)
    ensures ok <==> Wraps(s)
  {
    var depth, inQuote := 0, false;
    for i := 0 to |s|
      invariant Cursor(depth, inQuote) == At(s, i)
      invariant forall j :: 0 <= j < i && j < |s| - 1 ==> !ClosesAt(s, j)
    {
      var c := s[i];
      if c == '\'' {
        inQuote := !inQuote;
      } else if inQuote {
      } else if c == '(' {
        depth := depth + 1;
      } else if c == ')' {
        depth := depth - 1;
        if depth == 0 && i != |s| - 1 {
          assert ClosesAt(s, i);
          return false;
        }
      }
    }
    return depth == 0;
  }

  method Strip(s0: string) returns (s: string)
    ensures s == StripParens(s0)
  {
    s := s0;
    while true
      invariant StripParens(s) == StripParens(s0)
      decreases |s|
    {
      if !(|s| >= 2 && s[0] == '(' && s[|s| - 1] == ')') {
        return;
      }
      var wraps := CheckWraps(s);
      if !wraps {
        return;
      }
      s := TrimSpace(s[1..|s| - 1]);
    }
  }

  // ----- Top-level separators -----

  predicate HasWordAt(s: string, i: nat, word: string)
    requires i <= |s|
  {
    word <= s[i..]
  }

  predicate SeparatorAt(s: string, i: nat)
    requires i <= |s|
  {
    At(s, i) == Outside && (HasWordAt(s, i, OR) || HasWordAt(s, i, AND))
  }

  // The first separator at or after from; |s| when there is none.
  function FirstSeparator(s: string, from: nat): (i: nat)
    requires from <= |s|
    ensures from <= i <= |s|
    ensures i < |s| ==> SeparatorAt(s, i)
    ensures forall j :: from <= j < i ==> !SeparatorAt(s, j)
    decreases |s| - from
  {
    if from == |s| || SeparatorAt(s, from) then from else FirstSeparator(s, from + 1)
  }

  // Cuts s at its AND separators, leftmost first, and refuses a top-level OR.
  function Cut(s: string, from: nat): Option<seq<string>>
    requires from <= |s|
    decreases |s| - from
  {
    var i := FirstSeparator(s, from);
    if i == |s| then Some([s[from..]])
    else if HasWordAt(s, i, OR) then None
    else
      assert |s[i..]| >= |AND|;
      match Cut(s, i + |AND|)
      case None => None
      case Some(rest) => Some([s[from..i]] + rest)
  }

  // What splitAnd returns: None stands for its false.
  ghost function SplitAnd(filter: string): Option<seq<string>>
  {
    var s := StripParens(TrimSpace(filter));
    if s == "" || !Balanced(s) then None else Cut(s, 0)
  }

  function Join(terms: seq<string>): string
  {
    if terms == [] then ""
    else if |terms| == 1 then terms[0]
    else terms[0] + AND + Join(terms[1..])
  }

  // ----- The scanner itself -----

  lemma SkipAnd(s: string, i: nat)
    requires i <= |s| && HasWordAt(s, i, AND) && At(s, i) == Outside
    ensures i + |AND| <= |s| && At(s, i + |AND|) == Outside
    ensures forall j :: i <= j <= i + |AND| ==> At(s, j).depth >= 0
  {
    assert |s[i..]| >= |AND|;
    assert s[i] == AND[0] && s[i + 1] == AND[1] && s[i + 2] == AND[2] && s[i + 3] == AND[3] && s[i + 4] == AND[4];
    assert At(s, i + 1) == Outside && At(s, i + 2) == Outside && At(s, i + 3) == Outside && At(s, i + 4) == Outside;
  }

  // How far the scan has come: terms are cut off before start, none can be cut off
  // between start and i, and no parenthesis closed too early.
  ghost predicate Scanned(s: string, terms: seq<string>, start: nat, i: nat)
  {
    && start <= i <= |s|
    && (forall j :: start <= j < i ==> !SeparatorAt(s, j))
    && (forall j :: 0 <= j <= i ==> At(s, j).depth >= 0)
    && Cut(s, 0) == Prepend(terms, Cut(s, start))
  }

  ghost function Prepend(terms: seq<string>, rest: Option<seq<string>>): Option<seq<string>>
  {
    match rest
    case None => None
    case Some(more) => Some(terms + more)
  }

  lemma PrependNothing(rest: Option<seq<string>>)
    ensures Prepend([], rest) == rest
  {
    assert rest.Some? ==> [] + rest.value == rest.value;
  }

  lemma CutStops(s: string, from: nat)
    requires from <= |s|
    ensures var i := FirstSeparator(s, from);
            && (i == |s| ==> Cut(s, from) == Some([s[from..]]))
            && (i < |s| && HasWordAt(s, i, OR) ==> Cut(s, from) == None)
  {
  }

  lemma CutAnd(s: string, from: nat)
    requires from <= |s| && FirstSeparator(s, from) < |s| && !HasWordAt(s, FirstSeparator(s, from), OR)
    ensures var i := FirstSeparator(s, from);
            && i + |AND| <= |s|
            && Cut(s, from) == Prepend([s[from..i]], Cut(s, i + |AND|))
  {
  }

  // The scan reaches an AND and nothing before it separates.
  lemma CutHere(s: string, from: nat, i: nat)
    requires from <= i <= |s| && At(s, i) == Outside && HasWordAt(s, i, AND)
    requires forall j :: from <= j < i ==> !SeparatorAt(s, j)
    ensures i + |AND| <= |s| && At(s, i + |AND|) == Outside
    ensures Cut(s, from) == Prepend([s[from..i]], Cut(s, i + |AND|))
  {
    SkipAnd(s, i);
    OrIsNotAnd(s, i);
    FirstSeparatorIs(s, from, i);
    CutAnd(s, from);
  }

  lemma PrependBoth(terms: seq<string>, term: string, rest: Option<seq<string>>)
    ensures Prepend(terms, Prepend([term], rest)) == Prepend(terms + [term], rest)
  {
    if rest.Some? {
      assert terms + ([term] + rest.value) == terms + [term] + rest.value;
    }
  }

  lemma ScanAnd(s: string, terms: seq<string>, start: nat, i: nat)
    requires Scanned(s, terms, start, i) && At(s, i) == Outside && HasWordAt(s, i, AND)
    ensures i + |AND| <= |s| && At(s, i + |AND|) == Outside
    ensures Scanned(s, terms + [s[start..i]], i + |AND|, i + |AND|)
  {
    SkipAnd(s, i);
    CutHere(s, start, i);
    PrependBoth(terms, s[start..i], Cut(s, i + |AND|));
  }

  lemma ScanOr(s: string, terms: seq<string>, start: nat, i: nat)
    requires Scanned(s, terms, start, i) && i < |s| && At(s, i) == Outside && HasWordAt(s, i, OR)
    ensures Cut(s, 0) == None
  {
    FirstSeparatorIs(s, start, i);
  }

  lemma ScanEnd(s: string, terms: seq<string>, start: nat)
    requires Scanned(s, terms, start, |s|)
    ensures Cut(s, 0) == Some(terms + [s[start..]])
  {
  }

  lemma ScanOther(s: string, terms: seq<string>, start: nat, i: nat)
    requires Scanned(s, terms, start, i) && i < |s|
    requires !SeparatorAt(s, i) && At(s, i + 1).depth >= 0
    ensures Scanned(s, terms, start, i + 1)
  {
  }

  lemma SeparatorIsSpace(s: string, i: nat)
    requires i <= |s| && SeparatorAt(s, i)
    ensures i < |s| && s[i] == ' '
  {
  }

  ghost predicate SplitsInto(s: string, terms: seq<string>, ok: bool)
  {
    if ok then Balanced(s) && Cut(s, 0) == Some(terms) else !Balanced(s) || Cut(s, 0) == None
  }

  lemma RefuseUnbalanced(s: string, i: nat)
    requires i <= |s| && (At(s, i).depth < 0 || (i == |s| && At(s, i) != Outside))
    ensures SplitsInto(s, [], false)
  {
  }

  lemma RefuseOr(s: string, terms: seq<string>, start: nat, i: nat)
    requires Scanned(s, terms, start, i) && i < |s| && At(s, i) == Outside && HasWordAt(s, i, OR)
    ensures SplitsInto(s, [], false)
  {
    ScanOr(s, terms, start, i);
  }

  lemma FinishScan(s: string, terms: seq<string>, start: nat)
    requires Scanned(s, terms, start, |s|) && At(s, |s|) == Outside
    ensures SplitsInto(s, terms + [s[start..]], true)
  {
    ScanEnd(s, terms, start);
  }

  // The cases of the scanner's switch that only move its state, and the one that refuses.
  method NextState(s: string, i: nat, depth0: int, inQuote0: bool) returns (depth: int, inQuote: bool)
    requires i < |s| && Cursor(depth0, inQuote0) == At(s, i)
    ensures Cursor(depth, inQuote) == At(s, i + 1)
  {
    var c := s[i];
    depth, inQuote := depth0, inQuote0;
    if c == '\'' {
      inQuote := !inQuote;
    } else if inQuote {
    } else if c == '(' {
      depth := depth + 1;
    } else if c == ')' {
      depth := depth - 1;
    }
  }

  lemma WordsAreSeparators(s: string, i: nat)
    requires i < |s| && !(At(s, i) == Outside && (HasWordAt(s, i, OR) || HasWordAt(s, i, AND)))
    ensures !SeparatorAt(s, i)
  {
  }

  // The scan of a filter without parentheses around the whole. The words start with a
  // space, which none of the other cases does, so they may be looked for first.
  method SplitStripped(s: string) returns (terms: seq<string>, ok: bool)
    ensures SplitsInto(s, terms, ok)
  {
    terms := [];
    PrependNothing(Cut(s, 0));
    var depth, inQuote := 0, false;
    var start: nat, i: nat := 0, 0;
    while i < |s|
      invariant Scanned(s, terms, start, i)
      invariant Cursor(depth, inQuote) == At(s, i)
    {
      if !inQuote && depth == 0 && HasWordAt(s, i, OR) {
        RefuseOr(s, terms, start, i);
        return [], false;
      }
      if !inQuote && depth == 0 && HasWordAt(s, i, AND) {
        ScanAnd(s, terms, start, i);
        terms := terms + [s[start..i]];
        start := i + |AND|;
        i := i + |AND|;
        continue;
      }
      WordsAreSeparators(s, i);
      depth, inQuote := NextState(s, i, depth, inQuote);
      if depth < 0 {
        RefuseUnbalanced(s, i + 1);
        return [], false;
      }
      ScanOther(s, terms, start, i);
      i := i + 1;
    }
    if depth != 0 || inQuote {
      RefuseUnbalanced(s, i);
      return [], false;
    }
    FinishScan(s, terms, start);
    return terms + [s[start..]], true;
  }

  method Split(filter: string) returns (terms: seq<string>, ok: bool)
    ensures ok <==> SplitAnd(filter).Some?
    ensures ok ==> terms == SplitAnd(filter).value
  {
    var s := Strip(TrimSpace(filter));
    if s == "" {
      return [], false;
    }
    terms, ok := SplitStripped(s);
  }

  lemma {:induction false} FirstSeparatorIs(s: string, from: nat, i: nat)
    requires from <= i <= |s|
    requires forall j :: from <= j < i ==> !SeparatorAt(s, j)
    requires i == |s| || SeparatorAt(s, i)
    ensures FirstSeparator(s, from) == i
  {
  }

  lemma OrIsNotAnd(s: string, i: nat)
    requires i <= |s| && HasWordAt(s, i, AND)
    ensures !HasWordAt(s, i, OR)
  {
    assert AND[1] == s[i..][1];
    assert OR[1] != AND[1];
  }
}
