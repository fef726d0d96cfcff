/** The log pattern scanner, LogFormatter::init, and the printer that undoes it. */
module LogPattern {

  /** An element of init's vector: literal text, or a directive with its name and brace format. */
  datatype Entry = Text(text: string) | Directive(name: string, fmt: string)

  predicate IsAlpha(c: char) {
    'a' <= c <= 'z' || 'A' <= c <= 'Z'
  }

  /** What a directive's name may consist of, as the scanner sees it: letters, and closing braces. */
  predicate InName(c: char) {
    IsAlpha(c) || c == '}'
  }

  /** The end of the name that starts at `n`. */
  function NameEnd(s: string, n: nat): (e: nat)
    requires n <= |s|
    ensures n <= e <= |s|
    ensures forall k :: n <= k < e ==> InName(s[k])
    ensures e < |s| ==> !InName(s[e])
    decreases |s| - n
  {
    if n < |s| && InName(s[n]) then NameEnd(s, n + 1) else n
  }

  /** The first closing brace from `n` on, or the end. */
  function BraceEnd(s: string, n: nat): (e: nat)
    requires n <= |s|
    ensures n <= e <= |s|
    ensures forall k :: n <= k < e ==> s[k] != '}'
    ensures e < |s| ==> s[e] == '}'
    decreases |s| - n
  {
    if n < |s| && s[n] != '}' then BraceEnd(s, n + 1) else n
  }

  function Flush(nstr: string): seq<Entry> {
    if nstr == "" then [] else [Text(nstr)]
  }

  const PATTERN_ERROR := "<<pattern_error>>"

  /** What one directive at the front of `s` turns into: the entry and how many characters it takes, or None for
      a brace that is never closed. */
  datatype Piece = Unclosed | Piece(entry: Entry, length: nat)

  function First(s: string): (p: Piece)
    requires s != "" && s[0] == '%'
    ensures p.Piece? ==> 0 < p.length <= |s| && p.entry.Directive?
  {
    var e := NameEnd(s, 1);
    if e < |s| && s[e] == '{' then
      var b := BraceEnd(s, e + 1);
      if b == |s| then Unclosed else Piece(Directive(s[1..e], s[e + 1..b]), b + 1)
    else Piece(Directive(s[1..e], ""), e)
  }

  /** `%%`: only the first of the two is taken. */
  predicate Doubled(s: string) {
    |s| > 1 && s[0] == '%' && s[1] == '%'
  }

  /** The entries for the rest `s` of a pattern, with the literal text `nstr` not yet written out. */
  function Scan(s: string, nstr: string): seq<Entry>
    decreases |s|
  {
    if s == "" then Flush(nstr)
    else if s[0] != '%' || Doubled(s) then Scan(s[1..], nstr + [s[0]])
    else
      match First(s)
      case Unclosed => [Text(PATTERN_ERROR)] + Scan(s[1..], nstr)
      case Piece(d, n) => Flush(nstr) + [d] + Scan(s[n..], "")
  }

  /** Whether the scan meets a brace that is never closed. */
  predicate Fails(s: string)
    decreases |s|
  {
    if s == "" then false
    else if s[0] != '%' || Doubled(s) then Fails(s[1..])
    else
      match First(s)
      case Unclosed => true
      case Piece(_, n) => Fails(s[n..])
  }

  /** How many directives with empty braces the scan meets; it cannot tell them from directives without braces. */
  function EmptyBraces(s: string): nat
    decreases |s|
  {
    if s == "" then 0
    else if s[0] != '%' || Doubled(s) then EmptyBraces(s[1..])
    else
      match First(s)
      case Unclosed => EmptyBraces(s[1..])
      case Piece(d, n) => (if d.fmt == "" && n > |d.name| + 1 then 1 else 0) + EmptyBraces(s[n..])
  }

  // --------------------------------------------------------------------- printing

  function PrintEntry(e: Entry): string {
    match e
    case Text(t) => t
    case Directive(name, fmt) => "%" + name + if fmt == "" then "" else "{" + fmt + "}"
  }

  function Print(es: seq<Entry>): string {
    if es == [] then "" else PrintEntry(es[0]) + Print(es[1..])
  }

  lemma {:induction false} PrintConcat(a: seq<Entry>, b: seq<Entry>)
    ensures Print(a + b) == Print(a) + Print(b)
  {
    if a == [] {
      assert a + b == b;
    } else {
      assert (a + b)[1..] == a[1..] + b;
      PrintConcat(a[1..], b);
    }
  }

  lemma PrintFlush(nstr: string)
    ensures Print(Flush(nstr)) == nstr
  {
    if nstr != "" {
      assert Flush(nstr)[1..] == [];
    }
  }

  lemma PrintOne(e: Entry)
    ensures Print([e]) == PrintEntry(e)
  {
    assert [e][1..] == [];
  }

  /** One directive prints back to the characters it was scanned from, unless its braces are empty. */
  lemma FirstPrints(s: string)
    requires s != "" && s[0] == '%' && First(s).Piece?
    ensures var p := First(s);
      && (p.entry.fmt == "" && p.length > |p.entry.name| + 1 ==> |PrintEntry(p.entry)| == p.length - 2)
      && (p.entry.fmt != "" || p.length <= |p.entry.name| + 1 ==> PrintEntry(p.entry) == s[..p.length])
  {
    var e := NameEnd(s, 1);
    assert s[..e] == "%" + s[1..e];
    if e < |s| && s[e] == '{' {
      var b := BraceEnd(s, e + 1);
      assert s[..b + 1] == s[..e] + "{" + s[e + 1..b] + "}";
    }
  }

  /** Scanning loses nothing: without unclosed braces, printing the entries gives the pattern back exactly when it
      holds no directive with empty braces - doubled percent signs included. */
  lemma {:induction false} PrintScan(s: string, nstr: string)
    requires !Fails(s)
    ensures |Print(Scan(s, nstr))| == |nstr| + |s| - 2 * EmptyBraces(s)
    ensures Print(Scan(s, nstr)) == nstr + s <==> EmptyBraces(s) == 0
    decreases |s|
  {
    if s == "" {
      PrintFlush(nstr);
    } else if s[0] != '%' || Doubled(s) {
      PrintScan(s[1..], nstr + [s[0]]);
      assert nstr + [s[0]] + s[1..] == nstr + s;
    } else {
      var p := First(s);
      assert "" + s[p.length..] == s[p.length..];
      PrintScan(s[p.length..], "");
      PrintStep(s, nstr, p.length, p.entry, Scan(s[p.length..], ""), EmptyBraces(s[p.length..]));
    }
  }

  lemma PrintStep(s: string, nstr: string, n: nat, d: Entry, rest: seq<Entry>, k: nat)
    requires s != "" && s[0] == '%' && First(s) == Piece(d, n)
    requires |Print(rest)| == |s| - n - 2 * k && (Print(rest) == s[n..] <==> k == 0)
    ensures var q := k + if d.fmt == "" && n > |d.name| + 1 then 1 else 0;
      && |Print(Flush(nstr) + [d] + rest)| == |nstr| + |s| - 2 * q
      && (Print(Flush(nstr) + [d] + rest) == nstr + s <==> q == 0)
  {
    FirstPrints(s);
    PrintFlushed(nstr, d, rest);
    Halves(nstr, s, n, PrintEntry(d), Print(rest));
  }

  lemma PrintFlushed(nstr: string, d: Entry, rest: seq<Entry>)
    ensures Print(Flush(nstr) + [d] + rest) == nstr + PrintEntry(d) + Print(rest)
  {
    PrintConcat(Flush(nstr) + [d], rest);
    PrintConcat(Flush(nstr), [d]);
    PrintFlush(nstr);
    PrintOne(d);
  }

  /** If one half prints back, the whole does exactly when the other half does. */
  lemma Halves(nstr: string, s: string, n: nat, a: string, b: string)
    requires n <= |s|
    ensures |a| == n && |b| == |s| - n ==> (nstr + a + b == nstr + s <==> a == s[..n] && b == s[n..])
    ensures a == s[..n] && b == s[n..] ==> nstr + a + b == nstr + s
  {
    assert s == s[..n] + s[n..];
    if |a| == n && |b| == |s| - n && nstr + a + b == nstr + s {
      assert a == (nstr + a + b)[|nstr|..|nstr| + n];
      assert b == (nstr + a + b)[|nstr| + n..];
    }
  }

  // ------------------------------------------------------------------ normal forms

  predicate NormalEntry(e: Entry) {
    match e
    case Text(t) => t != "" && '%' !in t
    case Directive(name, fmt) => (forall c :: c in name ==> IsAlpha(c)) && '}' !in fmt
  }

  /** What may follow a directive without braces: anything that does not lengthen its name or open a brace, and no
      second percent sign straight after the first. */
  predicate MayFollow(d: Entry, next: string)
    requires d.Directive?
  {
    next == "" || (!InName(next[0]) && next[0] != '{' && (d.name == "" ==> next[0] != '%'))
  }

  predicate Normal(es: seq<Entry>) {
    es != [] ==>
      && NormalEntry(es[0]) && Normal(es[1..])
      && (es[0].Text? ==> |es| == 1 || es[1].Directive?)
      && (es[0].Directive? && es[0].fmt == "" ==> MayFollow(es[0], Print(es[1..])))
  }

  /** Literal text in front of a directive, or at the end, is taken whole. */
  lemma {:induction false} ScanText(t: string, rest: string, nstr: string)
    requires '%' !in t
    ensures Scan(t + rest, nstr) == Scan(rest, nstr + t) && Fails(t + rest) == Fails(rest)
    decreases |t|
  {
    if t == "" {
      assert t + rest == rest && nstr + t == nstr;
    } else {
      assert (t + rest)[1..] == t[1..] + rest;
      assert t[0] in t;
      ScanText(t[1..], rest, nstr + [t[0]]);
      assert nstr + [t[0]] + t[1..] == nstr + t;
    }
  }

  lemma {:induction false} NameEndIs(s: string, n: nat, e: nat)
    requires n <= e <= |s| && (forall k :: n <= k < e ==> InName(s[k])) && (e < |s| ==> !InName(s[e]))
    ensures NameEnd(s, n) == e
    decreases |s| - n
  {
    if n < e { NameEndIs(s, n + 1, e); }
  }

  lemma {:induction false} BraceEndIs(s: string, n: nat, e: nat)
    requires n <= e < |s| && (forall k :: n <= k < e ==> s[k] != '}') && s[e] == '}'
    ensures BraceEnd(s, n) == e
    decreases |s| - n
  {
    if n < e { BraceEndIs(s, n + 1, e); }
  }

  /** A printed directive in normal form is scanned as itself. */
  lemma FirstOfPrinted(d: Entry, rest: string)
    requires d.Directive? && NormalEntry(d) && (d.fmt == "" ==> MayFollow(d, rest))
    ensures var s := PrintEntry(d) + rest;
      s[0] == '%' && !Doubled(s) && First(s) == Piece(d, |PrintEntry(d)|) && s[|PrintEntry(d)|..] == rest
  {
    var p := PrintEntry(d);
    var s := p + rest;
    var e := |d.name| + 1;
    assert s[1..e] == d.name;
    forall k | 1 <= k < e
      ensures InName(s[k])
    {
      assert s[k] == d.name[k - 1] && d.name[k - 1] in d.name;
    }
    NameEndIs(s, 1, e);
    if d.fmt != "" {
      var b := e + 1 + |d.fmt|;
      assert s[e + 1..b] == d.fmt;
      forall k | e + 1 <= k < b
        ensures s[k] != '}'
      {
        assert s[k] == d.fmt[k - e - 1] && d.fmt[k - e - 1] in d.fmt;
      }
      BraceEndIs(s, e + 1, b);
    }
  }

  lemma ScanDirectiveFirst(d: Entry, rest: string, nstr: string)
    requires d.Directive? && NormalEntry(d) && (d.fmt == "" ==> MayFollow(d, rest))
    ensures Scan(PrintEntry(d) + rest, nstr) == Flush(nstr) + [d] + Scan(rest, "")
    ensures Fails(PrintEntry(d) + rest) == Fails(rest)
  {
    FirstOfPrinted(d, rest);
  }

  /** Pending literal text comes out in front of the directive that ends it. */
  lemma PendingText(es: seq<Entry>, t: string)
    requires Normal(es) && t != "" && (es == [] || es[0].Directive?) && Scan(Print(es), "") == es
    ensures Scan(Print(es), t) == [Text(t)] + es
  {
    if es != [] {
      ScanDirectiveFirst(es[0], Print(es[1..]), "");
      ScanDirectiveFirst(es[0], Print(es[1..]), t);
    }
  }

  /** The scanner inverts the printer on every list in normal form, and reports no error. */
  lemma {:induction false} ScanPrint(es: seq<Entry>)
    requires Normal(es)
    ensures Scan(Print(es), "") == es && !Fails(Print(es))
    decreases |es|
  {
    if es != [] {
      var rest := Print(es[1..]);
      ScanPrint(es[1..]);
      match es[0]
      case Directive(_, _) =>
        ScanDirectiveFirst(es[0], rest, "");
        assert es == Flush("") + [es[0]] + es[1..];
      case Text(t) =>
        ScanText(t, rest, "");
        assert "" + t == t;
        PendingText(es[1..], t);
        assert es == [Text(t)] + es[1..];
    }
  }

  /** `%%` is not an escape: the second sign starts a directive of its own. */
  lemma DoubledStartsDirective(s: string, nstr: string)
    ensures Scan("%%" + s, nstr) == Scan("%" + s, nstr + "%")
    ensures Scan("%%", "") == [Text("%"), Directive("", "")]
  {
    var all := "%%" + s;
    assert all[1..] == "%" + s;
    assert "%%"[1..] == "%" && Doubled("%%");
    assert First("%") == Piece(Directive("", ""), 1);
    assert "%"[1..] == "";
    assert "" + ['%'] == "%";
  }

  /** A brace that is never closed: the error text comes in front of the literal text pending before the directive, and
      the directive's own characters follow that text, without the percent sign. */
  lemma UnclosedBrace(name: string, rest: string, nstr: string)
    requires (forall c :: c in name ==> IsAlpha(c)) && '}' !in rest && '%' !in rest
    ensures var s := "%" + name + "{" + rest;
      Fails(s) && Scan(s, nstr) == [Text("<<pattern_error>>"), Text(nstr + name + "{" + rest)]
  {
    var s, e := "%" + name + "{" + rest, |name| + 1;
    forall k | 1 <= k < e
      ensures InName(s[k]) && s[k] != '%'
    {
      assert s[k] == name[k - 1] && name[k - 1] in name;
    }
    NameEndIs(s, 1, e);
    forall k | e < k < |s|
      ensures s[k] != '}'
    {
      assert s[k] == rest[k - e - 1] && rest[k - e - 1] in rest;
    }
    var text := name + "{" + rest;
    assert s[1..] == text && text + "" == text && nstr + text == nstr + name + "{" + rest;
    ScanText(text, "", nstr);
  }

  // ---------------------------------------------------------------- the formatter

  /** What is put into m_items. */
  datatype FormatItem = StringItem(text: string) | FieldItem(name: string, fmt: string)

  predicate KnownName(name: string) {
    name in ["m", "p", "r", "c", "t", "n", "d", "f", "l", "T", "F", "N"]
  }

  function Resolve(e: Entry): FormatItem {
    match e
    case Text(t) => StringItem(t)
    case Directive(name, fmt) =>
      if KnownName(name) then FieldItem(name, fmt) else StringItem("<<error_format %" + name + ">>")
  }

  function ResolveAll(es: seq<Entry>): (r: seq<FormatItem>)
    ensures |r| == |es| && forall k :: 0 <= k < |es| ==> r[k] == Resolve(es[k])
  {
    if es == [] then [] else ResolveAll(es[..|es| - 1]) + [Resolve(es[|es| - 1])]
  }

  predicate Unknown(es: seq<Entry>) {
    exists k :: 0 <= k < |es| && es[k].Directive? && !KnownName(es[k].name)
  }

  lemma UnknownAppend(es: seq<Entry>, e: Entry)
    ensures Unknown(es + [e]) <==> Unknown(es) || (e.Directive? && !KnownName(e.name))
    ensures ResolveAll(es + [e]) == ResolveAll(es) + [Resolve(e)]
  {
    var all := es + [e];
    assert all[..|es|] == es && all[|es|] == e;
    assert forall k :: 0 <= k < |es| ==> all[k] == es[k];
  }

  /** The names the formatter knows are these twelve letters: a directive with one of them becomes its field, with or
      without a brace format; with any other letter it becomes an error text, and the error flag is set. */
  lemma OneLetter(c: char, fmt: string)
    requires 'a' <= c <= 'z' || 'A' <= c <= 'Z'
    requires '}' !in fmt
    ensures !Fails("%" + [c]) && !Fails("%" + [c] + "{" + fmt + "}")
    ensures var known := c in "mprctndflTFN";
      && (Unknown(Scan("%" + [c], "")) <==> !known)
      && (Unknown(Scan("%" + [c] + "{" + fmt + "}", "")) <==> !known)
      && ResolveAll(Scan("%" + [c], "")) == [if known then FieldItem([c], "") else StringItem("<<error_format %" + [c] + ">>")]
      && ResolveAll(Scan("%" + [c] + "{" + fmt + "}", ""))
           == [if known then FieldItem([c], fmt) else StringItem("<<error_format %" + [c] + ">>")]
  {
    BareLetter(c);
    BracedLetter(c, fmt);
    var bare, braced := Directive([c], ""), Directive([c], fmt);
    assert [bare][..0] == [] && [braced][..0] == [];
    assert [bare][0] == bare && [braced][0] == braced;
    assert [c] in ["m", "p", "r", "c", "t", "n", "d", "f", "l", "T", "F", "N"] <==> c in "mprctndflTFN";
  }

  /** A directive's name ends at the first character that is neither a letter nor a brace. */
  lemma NameStops(c: char, d: char, rest: string)
    requires 'a' <= c <= 'z' || 'A' <= c <= 'Z'
    requires d < 'A' || 'Z' < d < 'a' || ('z' < d && d != '{' && d != '}')
    ensures Scan("%" + [c, d] + rest, "") == [Directive([c], "")] + Scan([d] + rest, "")
  {
    var s := "%" + [c, d] + rest;
    NameEndIs(s, 1, 2);
    assert s[1..2] == [c] && s[2..] == [d] + rest;
  }

  lemma BareLetter(c: char)
    requires InName(c)
    ensures Scan("%" + [c], "") == [Directive([c], "")] && !Fails("%" + [c])
  {
    var s := "%" + [c];
    NameEndIs(s, 1, 2);
    assert s[1..2] == [c] && s[2..] == "";
  }

  lemma BracedLetter(c: char, fmt: string)
    requires InName(c) && '}' !in fmt
    ensures Scan("%" + [c] + "{" + fmt + "}", "") == [Directive([c], fmt)] && !Fails("%" + [c] + "{" + fmt + "}")
  {
    var s := "%" + [c] + "{" + fmt + "}";
    var b := 3 + |fmt|;
    NameEndIs(s, 1, 2);
    forall k | 3 <= k < b
      ensures s[k] != '}'
    {
      assert s[k] == fmt[k - 3] && fmt[k - 3] in fmt;
    }
    BraceEndIs(s, 3, b);
    assert s[1..2] == [c] && s[3..b] == fmt && s[b + 1..] == "";
  }

  class LogFormatter {
    var pattern: string
    var items: seq<FormatItem>
    var error: bool

    constructor (pattern: string)
      ensures this.pattern == pattern && items == ResolveAll(Scan(pattern, ""))
      ensures error == (Fails(pattern) || Unknown(Scan(pattern, "")))
    {
      this.pattern, items, error := pattern, [], false;
      new;
      Init();
    }

    /** reset as written: the new pattern's items come behind the old ones, and an error stays one. */
    method Reset(pattern: string)
      modifies this
      ensures this.pattern == pattern && items == old(items) + ResolveAll(Scan(pattern, ""))
      ensures error == (old(error) || Fails(pattern) || Unknown(Scan(pattern, "")))
    {
      this.pattern := pattern;
      Init();
    }

    /** The three ways a directive can end, in terms of the whole pattern. */
    lemma FirstPlain(i: nat, n: nat)
      requires i < n <= |pattern| && pattern[i] == '%' && (forall k :: i < k < n ==> InName(pattern[k]))
      requires n < |pattern| ==> !InName(pattern[n]) && pattern[n] != '{'
      ensures First(pattern[i..]) == Piece(Directive(pattern[i + 1..n], ""), n - i)
    {
      NameEndIs(pattern[i..], 1, n - i);
      assert pattern[i..][1..n - i] == pattern[i + 1..n];
    }

    lemma OpenBrace(i: nat, begin: nat)
      requires i < begin < |pattern| && pattern[i] == '%' && (forall k :: i < k < begin ==> InName(pattern[k]))
      requires pattern[begin] == '{'
      ensures NameEnd(pattern[i..], 1) == begin - i && pattern[i..][begin - i] == '{'
      ensures pattern[i..][1..begin - i] == pattern[i + 1..begin]
    {
      NameEndIs(pattern[i..], 1, begin - i);
    }

    lemma FirstBraced(i: nat, begin: nat, n: nat)
      requires i < begin < n < |pattern| && pattern[i] == '%' && (forall k :: i < k < begin ==> InName(pattern[k]))
      requires pattern[begin] == '{' && (forall k :: begin < k < n ==> pattern[k] != '}') && pattern[n] == '}'
      ensures First(pattern[i..]) == Piece(Directive(pattern[i + 1..begin], pattern[begin + 1..n]), n + 1 - i)
    {
      OpenBrace(i, begin);
      BraceEndIs(pattern[i..], begin - i + 1, n - i);
      assert pattern[i..][begin - i + 1..n - i] == pattern[begin + 1..n];
    }

    lemma FirstUnclosed(i: nat, begin: nat)
      requires i < begin < |pattern| && pattern[i] == '%' && (forall k :: i < k < begin ==> InName(pattern[k]))
      requires pattern[begin] == '{' && forall k :: begin < k < |pattern| ==> pattern[k] != '}'
      ensures First(pattern[i..]) == Unclosed
    {
      OpenBrace(i, begin);
      forall k | begin - i < k < |pattern| - i
        ensures pattern[i..][k] != '}'
      {
        assert pattern[i..][k] == pattern[i + k];
      }
    }

    /** The inner loop: one directive that starts at `i`. `n` is where it ends; `status` 1 means an open brace. */
    method ScanDirective(i: nat) returns (n: nat, str: string, fmt: string, status: nat)
      requires i < |pattern| && pattern[i] == '%'
      ensures i < n <= |pattern|
      ensures First(pattern[i..]) == (if status == 0 then Piece(Directive(str, fmt), n - i) else Unclosed)
    {
      var begin: nat := 0;
      n, status, str, fmt := i + 1, 0, "", "";
      while n < |pattern|
        invariant i < n <= |pattern| && (status == 0 || status == 1) && fmt == ""
        invariant status == 0 ==> forall k :: i < k < n ==> InName(pattern[k])
        invariant status == 0 ==> str == if n == |pattern| then pattern[i + 1..] else ""
        invariant status == 1 ==>
          && i < begin < n && pattern[begin] == '{' && (forall k :: i < k < begin ==> InName(pattern[k]))
          && (forall k :: begin < k < n ==> pattern[k] != '}') && (n < |pattern| ==> str == pattern[i + 1..begin])
        decreases |pattern| - n
      {
        var c := pattern[n];
        if status == 0 && !IsAlpha(c) && c != '{' && c != '}' {
          FirstPlain(i, n);
          str := pattern[i + 1..n];
          return;
        }
        if status == 0 {
          if c == '{' {
            str := pattern[i + 1..n];
            status, begin := 1, n;
            n := n + 1;
            continue;
          }
        } else if c == '}' {
          FirstBraced(i, begin, n);
          fmt := pattern[begin + 1..n];
          status := 0;
          n := n + 1;
          return;
        }
        n := n + 1;
        if n == |pattern| && str == "" {
          str := pattern[i + 1..];
        }
      }
      if status == 0 { FirstPlain(i, n); } else { FirstUnclosed(i, begin); }
    }

    /** What is left of the pattern at `i`, and the text collected, still lead to the whole result. */
    ghost predicate Progress(i: nat, nstr: string, vec: seq<Entry>, failed: bool)
      reads this`pattern
    {
      && i <= |pattern|
      && vec + Scan(pattern[i..], nstr) == Scan(pattern, "")
      && (failed || Fails(pattern[i..])) == Fails(pattern)
    }

    lemma TakeChar(i: nat, nstr: string, vec: seq<Entry>, failed: bool)
      requires Progress(i, nstr, vec, failed) && i < |pattern| && (pattern[i] != '%' || Doubled(pattern[i..]))
      ensures Progress(i + 1, nstr + [pattern[i]], vec, failed)
    {
      assert pattern[i..][1..] == pattern[i + 1..];
    }

    lemma TakePiece(i: nat, nstr: string, vec: seq<Entry>, failed: bool, n: nat, d: Entry)
      requires Progress(i, nstr, vec, failed) && i < n <= |pattern| && pattern[i] == '%' && !Doubled(pattern[i..])
      requires First(pattern[i..]) == Piece(d, n - i)
      ensures Progress(n, "", vec + Flush(nstr) + [d], failed)
    {
      assert pattern[i..][n - i..] == pattern[n..];
      var rest := Scan(pattern[n..], "");
      assert vec + (Flush(nstr) + [d] + rest) == vec + Flush(nstr) + [d] + rest;
    }

    lemma TakeUnclosed(i: nat, nstr: string, vec: seq<Entry>, failed: bool)
      requires Progress(i, nstr, vec, failed) && i < |pattern| && pattern[i] == '%' && !Doubled(pattern[i..])
      requires First(pattern[i..]) == Unclosed
      ensures Progress(i + 1, nstr, vec + [Text(PATTERN_ERROR)], true)
    {
      assert pattern[i..][1..] == pattern[i + 1..];
      var rest := Scan(pattern[i + 1..], nstr);
      assert vec + ([Text(PATTERN_ERROR)] + rest) == vec + [Text(PATTERN_ERROR)] + rest;
    }

    /** The part of the outer loop's body behind the inner loop. */
    method TakeDirective(i: nat, nstr: string, vec: seq<Entry>, failed: bool)
      returns (i': nat, nstr': string, vec': seq<Entry>, failed': bool)
      requires Progress(i, nstr, vec, failed) && i < |pattern| && pattern[i] == '%' && !Doubled(pattern[i..])
      ensures i < i' && Progress(i', nstr', vec', failed')
    {
      var n, str, fmt, status := ScanDirective(i);
      if status == 0 {
        TakePiece(i, nstr, vec, failed, n, Directive(str, fmt));
        vec', nstr', failed' := vec, nstr, failed;
        if nstr != "" {
          vec' := vec + [Text(nstr)];
          nstr' := "";
        }
        assert vec' == vec + Flush(nstr);
        vec' := vec' + [Directive(str, fmt)];
        i' := n;
      } else {
        TakeUnclosed(i, nstr, vec, failed);
        i', nstr', vec', failed' := i + 1, nstr, vec + [Text(PATTERN_ERROR)], true;
      }
    }

    /** The outer loop: the vector of entries. */
    method ScanPattern() returns (vec: seq<Entry>, failed: bool)
      ensures vec == Scan(pattern, "") && failed == Fails(pattern)
    {
      var nstr := "";
      vec, failed := [], false;
      var i: nat := 0;
      assert pattern[0..] == pattern;
      while i < |pattern|
        invariant Progress(i, nstr, vec, failed)
        decreases |pattern| - i
      {
        if pattern[i] != '%' || (i + 1 < |pattern| && pattern[i + 1] == '%') {
          TakeChar(i, nstr, vec, failed);
          nstr := nstr + [pattern[i]];
          i := i + 1;
          continue;
        }
        i, nstr, vec, failed := TakeDirective(i, nstr, vec, failed);
      }
      if nstr != "" {
        vec := vec + [Text(nstr)];
      }
    }

    /** One entry looked up, behind those of `pre`. */
    method AddItem(e: Entry, ghost base: seq<FormatItem>, ghost failed: bool, ghost pre: seq<Entry>)
      requires items == base + ResolveAll(pre) && error == (failed || Unknown(pre))
      modifies this`items, this`error
      ensures items == base + ResolveAll(pre + [e]) && error == (failed || Unknown(pre + [e]))
    {
      UnknownAppend(pre, e);
      match e
      case Text(t) => items := items + [StringItem(t)];
      case Directive(name, fmt) =>
        if KnownName(name) {
          items := items + [FieldItem(name, fmt)];
        } else {
          items := items + [StringItem("<<error_format %" + name + ">>")];
          error := true;
        }
    }

    method AddItems(vec: seq<Entry>)
      modifies this`items, this`error
      ensures items == old(items) + ResolveAll(vec) && error == (old(error) || Unknown(vec))
    {
      for k := 0 to |vec|
        invariant items == old(items) + ResolveAll(vec[..k])
        invariant error == (old(error) || Unknown(vec[..k]))
      {
        AddItem(vec[k], old(items), old(error), vec[..k]);
        assert vec[..k + 1] == vec[..k] + [vec[k]];
      }
      assert vec[..|vec|] == vec;
    }

    /** init: scan the pattern and look the names up. */
    method Init()
      modifies this`items, this`error
      ensures items == old(items) + ResolveAll(Scan(pattern, ""))
      ensures error == (old(error) || Fails(pattern) || Unknown(Scan(pattern, "")))
    {
      var vec, failed := ScanPattern();
      error := error || failed;
      AddItems(vec);
    }
  }
}
