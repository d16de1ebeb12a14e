/** Quoting an SQL identifier and reading one back (internal/plans/ddl.go,
    internal/plans/plans.go). */
module Identifiers {

  // strings.ReplaceAll(s, `"`, `""`)
  function Double(s: string): string
  {
    if s == "" then ""
    else (if s[0] == '"' then "\"\"" else [s[0]]) + Double(s[1..])
  }

  // strings.ReplaceAll(s, `""`, `"`): left to right, without overlaps
  function Undouble(s: string): string
  {
    if |s| >= 2 && s[0] == '"' && s[1] == '"' then "\"" + Undouble(s[2..])
    else if s == "" then ""
    else [s[0]] + Undouble(s[1..])
  }

  function QuoteIdent(s: string): string
  {
    "\"" + Double(s) + "\""
  }

  // Whether s[n] lies behind an odd number of double quotes.
  function Quoted(s: string, n: nat): bool
    requires n <= |s|
  {
    if n == 0 then false
    else if s[n - 1] == '"' then !Quoted(s, n - 1)
    else Quoted(s, n - 1)
  }

  predicate UnquotedDot(s: string, i: nat)
    requires i < |s|
  {
    s[i] == '.' && !Quoted(s, i)
  }

  // The last unquoted dot in front of s[n]; -1 when there is none.
  function LastDot(s: string, n: nat): (last: int)
    requires n <= |s|
    ensures -1 <= last < n
    ensures last >= 0 ==> UnquotedDot(s, last)
    ensures forall i :: last < i < n && i >= 0 ==> !UnquotedDot(s, i)
  {
    if n == 0 then -1
    else if UnquotedDot(s, n - 1) then n - 1
    else LastDot(s, n - 1)
  }

  function Unquote(s: string): string
  {
    if |s| >= 2 && s[0] == '"' && s[|s| - 1] == '"' then Undouble(s[1..|s| - 1]) else s
  }

  function ColumnNameOf(ref: string): string
  {
    Unquote(ref[LastDot(ref, |ref|) + 1..])
  }

  method LastUnquotedDot(s: string) returns (last: int)
    ensures last == LastDot(s, |s|)
  {
    var inQuote := false;
    last := -1;
    for i := 0 to |s|
      invariant inQuote == Quoted(s, i)
      invariant last == LastDot(s, i)
    {
      if s[i] == '"' {
        inQuote := !inQuote;
      } else if s[i] == '.' && !inQuote {
        last := i;
      }
    }
  }

  method ColumnName(ref0: string) returns (name: string)
    ensures name == ColumnNameOf(ref0)
  {
    var ref := ref0;
    var i := LastUnquotedDot(ref);
    if i >= 0 {
      ref := ref[i + 1..];
    }
    assert ref == ref0[i + 1..];
    if |ref| >= 2 && ref[0] == '"' && ref[|ref| - 1] == '"' {
      return Undouble(ref[1..|ref| - 1]);
    }
    return ref;
  }

  // ----- Round trips -----

  lemma {:induction false} UndoubleDouble(s: string)
    ensures Undouble(Double(s)) == s
  {
    if s != "" {
      UndoubleDouble(s[1..]);
      var d := Double(s);
      if s[0] == '"' {
        assert d[2..] == Double(s[1..]);
      } else {
        assert d[1..] == Double(s[1..]);
      }
      assert s == [s[0]] + s[1..];
    }
  }

  lemma {:induction false} PrefixState(a: string, b: string, n: nat)
    requires n <= |a|
    ensures Quoted(a + b, n) == Quoted(a, n)
    ensures LastDot(a + b, n) == LastDot(a, n)
  {
    if n > 0 {
      PrefixState(a, b, n - 1);
    }
  }

  // Behind an opening quote, doubled text holds no unquoted dot and leaves the quote open.
  lemma {:induction false} DoubledStaysQuoted(p: string, s: string)
    requires Quoted(p, |p|)
    ensures var r := p + Double(s);
            Quoted(r, |r|) && LastDot(r, |r|) == LastDot(p, |p|)
    decreases |s|
  {
    if s == "" {
      assert p + "" == p;
    } else {
      var d := if s[0] == '"' then "\"\"" else [s[0]];
      var q := p + d;
      PrefixState(p, d, |p|);
      assert Quoted(q, |q|) && LastDot(q, |q|) == LastDot(p, |p|) by {
        if s[0] == '"' {
          assert q[|p|] == '"' && q[|p| + 1] == '"';
          assert Quoted(q, |p| + 1) == false;
        }
      }
      DoubledStaysQuoted(q, s[1..]);
      assert p + Double(s) == q + Double(s[1..]);
    }
  }

  // Appending a quoted identifier to a text with closed quotes adds no unquoted dot.
  lemma {:induction false} QuotedAppended(p: string, s: string)
    requires !Quoted(p, |p|)
    ensures var r := p + QuoteIdent(s);
            !Quoted(r, |r|) && LastDot(r, |r|) == LastDot(p, |p|)
  {
    var open := p + "\"";
    PrefixState(p, "\"", |p|);
    DoubledStaysQuoted(open, s);
    var body := open + Double(s);
    PrefixState(body, "\"", |body|);
    assert p + QuoteIdent(s) == body + "\"";
  }

  lemma UnquoteQuoted(s: string)
    ensures Unquote(QuoteIdent(s)) == s
  {
    var q := QuoteIdent(s);
    assert q[1..|q| - 1] == Double(s);
    UndoubleDouble(s);
  }

  lemma QuotedAlone(s: string)
    ensures var q := QuoteIdent(s); !Quoted(q, |q|) && LastDot(q, |q|) == -1
  {
    QuotedAppended("", s);
    assert "" + QuoteIdent(s) == QuoteIdent(s);
  }

  // Any name at all, dots and quotes included, comes back from its quoted form.
  lemma {:induction false} QuotedNameReadsBack(s: string)
    ensures ColumnNameOf(QuoteIdent(s)) == s
  {
    QuotedAlone(s);
    UnquoteQuoted(s);
    assert QuoteIdent(s)[0..] == QuoteIdent(s);
  }

  // So does the column of a qualified reference, whatever the table is called.
  lemma {:induction false} QualifiedNameReadsBack(t: string, c: string)
    ensures ColumnNameOf(QuoteIdent(t) + "." + QuoteIdent(c)) == c
  {
    var table := QuoteIdent(t);
    QuotedAlone(t);
    var dotted := table + ".";
    PrefixState(table, ".", |table|);
    assert UnquotedDot(dotted, |table|);
    QuotedAppended(dotted, c);
    var ref := dotted + QuoteIdent(c);
    assert ref[|dotted|..] == QuoteIdent(c);
    UnquoteQuoted(c);
  }

  predicate Bare(s: string)
  {
    forall i :: 0 <= i < |s| ==> s[i] != '"' && s[i] != '.'
  }

  lemma {:induction false} BareState(p: string, s: string)
    requires !Quoted(p, |p|) && Bare(s)
    ensures !Quoted(p + s, |p + s|) && LastDot(p + s, |p + s|) == LastDot(p, |p|)
    decreases |s|
  {
    if s == "" {
      assert p + s == p;
    } else {
      var init, last := s[..|s| - 1], s[|s| - 1..];
      assert last[0] == s[|s| - 1];
      BareState(p, init);
      PrefixState(p + init, last, |p + init|);
      assert p + s == (p + init) + last;
    }
  }

  lemma {:induction false} BareClosed(s: string)
    requires Bare(s)
    ensures !Quoted(s, |s|) && LastDot(s, |s|) == -1
  {
    BareState("", s);
    assert "" + s == s;
  }

  // A name without quotes and dots comes back as it is.
  lemma BareNameReadsBack(c: string)
    requires Bare(c)
    ensures ColumnNameOf(c) == c
  {
    BareClosed(c);
    assert c[0..] == c;
  }

  // So does the column of a reference, behind a table that is bare or quoted.
  lemma BareColumnReadsBack(t: string, c: string)
    requires Bare(c)
    ensures Bare(t) ==> ColumnNameOf(t + "." + c) == c
    ensures ColumnNameOf(QuoteIdent(t) + "." + c) == c
  {
    if Bare(t) {
      BareClosed(t);
      BehindDot(t, c);
    }
    QuotedAlone(t);
    BehindDot(QuoteIdent(t), c);
  }

  lemma {:induction false} BehindDot(table: string, c: string)
    requires !Quoted(table, |table|) && Bare(c)
    ensures ColumnNameOf(table + "." + c) == c
  {
    var dotted := table + ".";
    PrefixState(table, ".", |table|);
    assert UnquotedDot(dotted, |table|);
    BareState(dotted, c);
    var ref := dotted + c;
    assert ref[|dotted|..] == c;
  }

  // Distinct names never share a quoted form.
  lemma QuotingIsInjective(a: string, b: string)
    requires QuoteIdent(a) == QuoteIdent(b)
    ensures a == b
  {
    UnquoteQuoted(a);
    UnquoteQuoted(b);
  }
}
