/** The IPv6 printer with its one-pass zero compression, and a reader that shows it loses nothing. */
module Ipv6 {
  import opened Prelude
  import opened Chunks
  import opened ByteOrder

  // ---------------------------------------------------------------------- numbers

  function DigitChar(d: nat): char
    requires d < 16
  {
    if d < 10 then '0' + d as char else 'a' + (d - 10) as char
  }

  predicate IsDigit(c: char) {
    '0' <= c <= '9' || 'a' <= c <= 'f'
  }

  function DigitValue(c: char): nat {
    if '0' <= c <= '9' then (c - '0') as nat else if 'a' <= c <= 'f' then 10 + (c - 'a') as nat else 0
  }

  /** A number as the stream writes it: hexadecimal in lower case without padding, or decimal. */
  function Digits(n: nat, hex: bool): (s: string)
    ensures s != "" && forall c :: c in s ==> IsDigit(c)
  {
    if hex then if n < 16 then [DigitChar(n)] else Digits(n / 16, hex) + [DigitChar(n % 16)]
    else if n < 10 then [DigitChar(n)] else Digits(n / 10, hex) + [DigitChar(n % 10)]
  }

  function Value(s: string, hex: bool): nat {
    if s == "" then 0 else (if hex then 16 else 10) * Value(s[..|s| - 1], hex) + DigitValue(s[|s| - 1])
  }

  lemma {:induction false} ValueOfDigits(n: nat, hex: bool)
    ensures Value(Digits(n, hex), hex) == n
  {
    var base := if hex then 16 else 10;
    if n >= base {
      var q := if hex then n / 16 else n / 10;
      var s := Digits(n, hex);
      assert s[..|s| - 1] == Digits(q, hex);
      ValueOfDigits(q, hex);
    } else {
      assert Digits(n, hex)[..0] == "";
    }
  }

  /** No padding: only zero starts with a zero, and a 16-bit number takes at most four hexadecimal digits, lower case. */
  lemma {:induction false} DigitsPlain(n: nat, hex: bool)
    ensures Digits(n, hex)[0] == '0' ==> n == 0 && Digits(n, hex) == "0"
    ensures forall c :: c in Digits(n, hex) ==> '0' <= c <= '9' || (hex && 'a' <= c <= 'f')
    ensures hex && n < 0x1_0000 ==> |Digits(n, hex)| <= 4
  {
    if n >= if hex then 16 else 10 {
      DigitsPlain(if hex then n / 16 else n / 10, hex);
      if hex && n < 0x1_0000 { AtMost(n / 16, 3); }
    }
  }

  /** A number below the k-th power of 16 has at most k hexadecimal digits. */
  lemma {:induction false} AtMost(n: nat, k: nat)
    requires 0 < k <= 4 && n < (if k == 1 then 16 else if k == 2 then 0x100 else if k == 3 then 0x1000 else 0x1_0000)
    ensures |Digits(n, true)| <= k
  {
    if n >= 16 {
      AtMost(n / 16, k - 1);
    }
  }

  // ---------------------------------------------------------------------- printing

  datatype Token = Colon | Group(value: nat)

  /** What print's loop writes from group `i` on; `used` is used_zeros. */
  function Body(g: seq<nat>, i: nat, used: bool): seq<Token>
    requires |g| == 8 && i <= 8
    decreases 8 - i
  {
    if i == 8 then if !used && g[7] == 0 then [Colon, Colon] else []
    else if g[i] == 0 && !used then Body(g, i + 1, used)
    else
      var gap := i > 0 && g[i - 1] == 0 && !used;
      (if gap then [Colon] else []) + (if i > 0 then [Colon] else []) + [Group(g[i])] + Body(g, i + 1, used || gap)
  }

  function TokenText(t: Token): (s: string)
    ensures s != "" && forall c :: c in s ==> c == ':' || IsDigit(c)
  {
    match t
    case Colon => ":"
    case Group(n) => Digits(n, true)
  }

  function Text(ts: seq<Token>): (s: string)
    ensures forall c :: c in s ==> c == ':' || IsDigit(c)
  {
    if ts == [] then "" else TokenText(ts[0]) + Text(ts[1..])
  }

  lemma {:induction false} TextConcat(a: seq<Token>, b: seq<Token>)
    ensures Text(a + b) == Text(a) + Text(b)
  {
    if a == [] {
      assert a + b == b;
    } else {
      assert (a + b)[1..] == a[1..] + b;
      TextConcat(a[1..], b);
    }
  }

  function Printed(g: seq<nat>, port: nat): string
    requires |g| == 8
  {
    "[" + Text(Body(g, 0, false)) + "]:" + Digits(port, false)
  }

  // ------------------------------------------------------- what the loop writes, in one piece

  /** Groups with single colons between them. */
  function Join(g: seq<nat>): seq<Token> {
    if g == [] then [] else if |g| == 1 then [Group(g[0])] else [Group(g[0]), Colon] + Join(g[1..])
  }

  /** The first zero group, and the end of its run. */
  function ZerosStart(g: seq<nat>, i: nat): (a: nat)
    requires i <= |g|
    ensures i <= a <= |g| && (forall k :: i <= k < a ==> g[k] != 0) && (a < |g| ==> g[a] == 0)
    decreases |g| - i
  {
    if i < |g| && g[i] != 0 then ZerosStart(g, i + 1) else i
  }

  function ZerosEnd(g: seq<nat>, a: nat): (b: nat)
    requires a <= |g|
    ensures a <= b <= |g| && (forall k :: a <= k < b ==> g[k] == 0) && (b < |g| ==> g[b] != 0)
    decreases |g| - a
  {
    if a < |g| && g[a] == 0 then ZerosEnd(g, a + 1) else a
  }

  /** Groups each with a colon in front. */
  function Tail(g: seq<nat>, i: nat): seq<Token>
    requires i <= |g|
    decreases |g| - i
  {
    if i == |g| then [] else [Colon, Group(g[i])] + Tail(g, i + 1)
  }

  /** Once the zeros are used, every group is written. */
  lemma {:induction false} BodyUsed(g: seq<nat>, i: nat)
    requires |g| == 8 && 0 < i <= 8
    ensures Body(g, i, true) == Tail(g, i)
    decreases 8 - i
  {
    if i < 8 {
      BodyUsed(g, i + 1);
      assert [] + [Colon] + [Group(g[i])] + Tail(g, i + 1) == [Colon, Group(g[i])] + Tail(g, i + 1);
    }
  }

  /** Inside the first run of zeros. */
  lemma {:induction false} BodyZeros(g: seq<nat>, i: nat)
    requires |g| == 8 && 0 < i <= 8 && g[i - 1] == 0
    ensures var b := ZerosEnd(g, i);
      Body(g, i, false) == if b == 8 then [Colon, Colon] else [Colon] + Tail(g, b)
    decreases 8 - i
  {
    if i < 8 {
      if g[i] == 0 {
        BodyZeros(g, i + 1);
      } else {
        BodyUsed(g, i + 1);
        assert [Colon] + [Colon] + [Group(g[i])] + Tail(g, i + 1) == [Colon] + ([Colon, Group(g[i])] + Tail(g, i + 1));
      }
    }
  }

  lemma PlainStep(g: seq<nat>, i: nat)
    requires |g| == 8 && 0 < i < 8 && g[i - 1] != 0 && g[i] != 0
    ensures Body(g, i, false) == [Colon, Group(g[i])] + Body(g, i + 1, false)
  {
    assert [] + [Colon] + [Group(g[i])] == [Colon, Group(g[i])];
  }

  lemma Regroup(a: seq<Token>, b: seq<Token>, c: seq<Token>)
    ensures a + b + c == a + (b + c)
  {
  }

  /** Before it. */
  lemma {:induction false} BodyPlain(g: seq<nat>, i: nat)
    requires |g| == 8 && 0 < i <= 8 && g[i - 1] != 0
    ensures var a := ZerosStart(g, i);
      && (a == 8 ==> Body(g, i, false) == Tail(g, i))
      && (a < 8 ==> Body(g, i, false) == Tail(g[..a], i) + Body(g, a + 1, false))
    decreases 8 - i
  {
    if i < 8 {
      var a := ZerosStart(g, i);
      if g[i] == 0 {
        assert Tail(g[..a], i) == [];
      } else {
        BodyPlain(g, i + 1);
        PlainStep(g, i);
        if a < 8 {
          assert g[..a][i] == g[i];
          Regroup([Colon, Group(g[i])], Tail(g[..a], i + 1), Body(g, a + 1, false));
        }
      }
    }
  }

  lemma {:induction false} JoinTail(g: seq<nat>, i: nat)
    requires i < |g|
    ensures Join(g[i..]) == [Group(g[i])] + Tail(g, i + 1)
    decreases |g| - i
  {
    if i + 1 < |g| {
      JoinTail(g, i + 1);
      assert g[i..][1..] == g[i + 1..];
      assert [Group(g[i]), Colon] + ([Group(g[i + 1])] + Tail(g, i + 2)) == [Group(g[i])] + ([Colon, Group(g[i + 1])] + Tail(g, i + 2));
    }
  }

  /** The loop writes the groups before the first run of zeros, `::` for that run, and the groups behind it. */
  lemma BodyShape(g: seq<nat>)
    requires |g| == 8
    ensures var a := ZerosStart(g, 0); var b := ZerosEnd(g, a);
      Body(g, 0, false) == if a == 8 then Join(g) else Join(g[..a]) + [Colon, Colon] + Join(g[b..])
  {
    var a := ZerosStart(g, 0);
    if a < 8 {
      FromZeros(g, a);
    }
    if a > 0 {
      BodyPlain(g, 1);
      FirstGroup(g, a);
      if a < 8 {
        Regroup([Group(g[0])], Tail(g[..a], 1), Body(g, a + 1, false));
        Regroup(Join(g[..a]), [Colon, Colon], Join(g[ZerosEnd(g, a)..]));
      }
    } else {
      assert Join(g[..0]) == [];
      assert [] + [Colon, Colon] == [Colon, Colon];
    }
  }

  lemma FromZeros(g: seq<nat>, a: nat)
    requires |g| == 8 && a < 8 && g[a] == 0
    ensures Body(g, a + 1, false) == [Colon, Colon] + Join(g[ZerosEnd(g, a)..])
  {
    BodyZeros(g, a + 1);
    AfterZeros(g, ZerosEnd(g, a));
  }

  lemma AfterZeros(g: seq<nat>, b: nat)
    requires |g| == 8 && b <= 8
    ensures (if b == 8 then [Colon, Colon] else [Colon] + Tail(g, b)) == [Colon, Colon] + Join(g[b..])
  {
    if b < 8 {
      JoinTail(g, b);
      assert [Colon] + ([Colon, Group(g[b])] + Tail(g, b + 1)) == [Colon, Colon] + ([Group(g[b])] + Tail(g, b + 1));
    } else {
      assert g[b..] == [];
    }
  }

  lemma FirstGroup(g: seq<nat>, a: nat)
    requires |g| == 8 && 0 < a <= 8 && g[0] != 0
    ensures Body(g, 0, false) == [Group(g[0])] + Body(g, 1, false)
    ensures Join(g[..a]) == [Group(g[0])] + Tail(g[..a], 1)
    ensures a == 8 ==> g[..a] == g
  {
    JoinTail(g[..a], 0);
    assert g[..a][0..] == g[..a];
    assert [] + [] + [Group(g[0])] + Body(g, 1, false) == [Group(g[0])] + Body(g, 1, false);
  }

  // ----------------------------------------------------------------------- reading

  predicate Double(ts: seq<Token>, k: nat) {
    k + 1 < |ts| && ts[k] == Colon && ts[k + 1] == Colon
  }

  /** The position of the first `::`, or the end. */
  function FindDouble(ts: seq<Token>, k: nat): (r: nat)
    requires k <= |ts|
    ensures k <= r <= |ts| && (forall j :: k <= j < r ==> !Double(ts, j)) && (r < |ts| ==> Double(ts, r))
    decreases |ts| - k
  {
    if k < |ts| && !Double(ts, k) then FindDouble(ts, k + 1) else k
  }

  function GroupsOf(ts: seq<Token>): seq<nat> {
    if ts == [] then [] else
      (match ts[0] case Group(n) => [n] case Colon => []) + GroupsOf(ts[1..])
  }

  function Zeros(n: nat): (r: seq<nat>)
    ensures |r| == n && forall k :: 0 <= k < n ==> r[k] == 0
  {
    if n == 0 then [] else [0] + Zeros(n - 1)
  }

  /** Eight groups again: `::` stands for as many zeros as are missing (section 2.2 of RFC 4291). */
  function Expand(ts: seq<Token>): seq<nat> {
    var k := FindDouble(ts, 0);
    var l, r := GroupsOf(ts[..k]), GroupsOf(ts[k..]);
    if |l| + |r| <= 8 then l + Zeros(8 - |l| - |r|) + r else []
  }

  lemma {:induction false} JoinFacts(g: seq<nat>)
    ensures GroupsOf(Join(g)) == g && (forall k: nat :: !Double(Join(g), k))
    ensures g == [] <==> Join(g) == []
    ensures g != [] ==> Join(g)[0].Group? && Join(g)[|Join(g)| - 1].Group?
    decreases |g|
  {
    var j := Join(g);
    if |g| == 1 {
      assert j[1..] == [];
      assert [g[0]] + [] == g;
    } else if |g| > 1 {
      JoinFacts(g[1..]);
      var rest := Join(g[1..]);
      assert j[1..] == [Colon] + rest && j[1..][1..] == rest;
      assert [g[0]] + ([] + g[1..]) == g;
      forall k: nat
        ensures !Double(j, k)
      {
        if 2 <= k && k + 1 < |j| {
          assert j[k] == rest[k - 2] && j[k + 1] == rest[k - 1];
          assert !Double(rest, k - 2);
        }
      }
    }
  }

  lemma {:induction false} GroupsConcat(a: seq<Token>, b: seq<Token>)
    ensures GroupsOf(a + b) == GroupsOf(a) + GroupsOf(b)
  {
    if a == [] {
      assert a + b == b;
    } else {
      assert (a + b)[1..] == a[1..] + b;
      GroupsConcat(a[1..], b);
    }
  }

  /** Between two joined lists there is exactly one `::`. */
  lemma OneDouble(l: seq<nat>, r: seq<nat>)
    ensures var ts := Join(l) + [Colon, Colon] + Join(r);
      && (forall k: nat :: Double(ts, k) <==> k == |Join(l)|)
      && FindDouble(ts, 0) == |Join(l)|
  {
    var a, b := Join(l), Join(r);
    var ts := a + [Colon, Colon] + b;
    JoinFacts(l);
    JoinFacts(r);
    forall k: nat
      ensures Double(ts, k) <==> k == |a|
    {
      if k + 1 < |a| {
        assert ts[k] == a[k] && ts[k + 1] == a[k + 1];
        assert !Double(a, k);
      } else if |a| + 2 <= k && k + 1 < |ts| {
        assert ts[k] == b[k - |a| - 2] && ts[k + 1] == b[k - |a| - 1];
        assert !Double(b, k - |a| - 2);
      } else if k == |a| + 1 && k + 1 < |ts| {
        assert ts[k + 1] == b[0];
      } else if k + 1 == |a| {
        assert ts[k] == a[k];
      }
    }
    assert Double(ts, |a|);
  }

  lemma ExpandDouble(l: seq<nat>, r: seq<nat>)
    requires |l| + |r| <= 8
    ensures Expand(Join(l) + [Colon, Colon] + Join(r)) == l + Zeros(8 - |l| - |r|) + r
  {
    var a, b := Join(l), Join(r);
    OneDouble(l, r);
    JoinFacts(l);
    JoinFacts(r);
    SplitAt(a, [Colon, Colon], b);
    GroupsConcat([Colon, Colon], b);
    assert GroupsOf([Colon, Colon]) == [];
  }

  lemma SplitAt(a: seq<Token>, m: seq<Token>, b: seq<Token>)
    ensures (a + m + b)[..|a|] == a && (a + m + b)[|a|..] == m + b
  {
  }

  lemma ExpandPlain(g: seq<nat>)
    requires |g| == 8
    ensures Expand(Join(g)) == g
  {
    var ts := Join(g);
    JoinFacts(g);
    assert ts[..|ts|] == ts && ts[|ts|..] == [];
    assert FindDouble(ts, 0) == |ts|;
    assert g + Zeros(0) + [] == g;
  }

  /** At most one `::`, standing for the first run of zeros, and nothing is lost. */
  lemma ExpandBody(g: seq<nat>)
    requires |g| == 8
    ensures Expand(Body(g, 0, false)) == g
    ensures forall j: nat, k: nat :: Double(Body(g, 0, false), j) && Double(Body(g, 0, false), k) ==> j == k
  {
    BodyShape(g);
    var a := ZerosStart(g, 0);
    if a == 8 {
      ExpandPlain(g);
      JoinFacts(g);
    } else {
      var b := ZerosEnd(g, a);
      ExpandDouble(g[..a], g[b..]);
      OneDouble(g[..a], g[b..]);
      assert g[..a] + Zeros(b - a) + g[b..] == g;
    }
  }

  /** The run of digits at the front. */
  function DigitRun(s: string, n: nat): (e: nat)
    requires n <= |s|
    ensures n <= e <= |s| && (forall k :: n <= k < e ==> IsDigit(s[k])) && (e < |s| ==> !IsDigit(s[e]))
    decreases |s| - n
  {
    if n < |s| && IsDigit(s[n]) then DigitRun(s, n + 1) else n
  }

  /** Split text into colons and numbers. */
  function Lex(s: string): seq<Token>
    decreases |s|
  {
    if s == "" then []
    else
      var e := DigitRun(s, 0);
      if e == 0 then [Colon] + Lex(s[1..]) else [Group(Value(s[..e], true))] + Lex(s[e..])
  }

  /** No number directly behind a number. */
  predicate Separated(ts: seq<Token>) {
    forall k :: 0 <= k < |ts| - 1 ==> ts[k].Colon? || ts[k + 1].Colon?
  }

  lemma {:induction false} DigitRunAt(s: string, n: nat, e: nat)
    requires n <= e <= |s| && (forall k :: n <= k < e ==> IsDigit(s[k])) && (e < |s| ==> !IsDigit(s[e]))
    ensures DigitRun(s, n) == e
    decreases |s| - n
  {
    if n < e { DigitRunAt(s, n + 1, e); }
  }

  lemma DigitRunIs(s: string, t: string)
    requires (forall c :: c in s ==> IsDigit(c)) && (t == "" || !IsDigit(t[0]))
    ensures DigitRun(s + t, 0) == |s|
  {
    forall k | 0 <= k < |s|
      ensures IsDigit((s + t)[k])
    {
      assert s[k] in s;
    }
    DigitRunAt(s + t, 0, |s|);
  }

  lemma {:induction false} LexText(ts: seq<Token>)
    requires Separated(ts)
    ensures Lex(Text(ts)) == ts
    decreases |ts|
  {
    if ts != [] {
      var t, rest := ts[0], Text(ts[1..]);
      assert forall k :: 0 <= k < |ts[1..]| ==> ts[1..][k] == ts[k + 1];
      LexText(ts[1..]);
      assert ts == [t] + ts[1..];
      match t
      case Colon =>
        assert (":" + rest)[1..] == rest;
      case Group(n) =>
        if |ts| > 1 { assert ts[1].Colon? && rest[0] == ':'; }
        LexGroup(n, rest);
    }
  }

  lemma LexGroup(n: nat, rest: string)
    requires rest == "" || rest[0] == ':'
    ensures Lex(Digits(n, true) + rest) == [Group(n)] + Lex(rest)
  {
    var d := Digits(n, true);
    DigitRunIs(d, rest);
    assert (d + rest)[..|d|] == d && (d + rest)[|d|..] == rest;
    ValueOfDigits(n, true);
  }

  lemma {:induction false} JoinSeparated(g: seq<nat>)
    ensures Separated(Join(g))
    decreases |g|
  {
    if |g| > 1 {
      JoinSeparated(g[1..]);
      var j, rest := Join(g), Join(g[1..]);
      forall k | 0 <= k < |j| - 1
        ensures j[k].Colon? || j[k + 1].Colon?
      {
        if k >= 2 { assert j[k] == rest[k - 2] && j[k + 1] == rest[k - 1]; }
      }
    }
  }

  lemma BodySeparated(g: seq<nat>)
    requires |g| == 8
    ensures Separated(Body(g, 0, false))
  {
    BodyShape(g);
    var a := ZerosStart(g, 0);
    var b := ZerosEnd(g, a);
    JoinSeparated(g);
    JoinSeparated(g[..a]);
    JoinSeparated(g[b..]);
    if a < 8 {
      var l, r := Join(g[..a]), Join(g[b..]);
      var ts := l + [Colon, Colon] + r;
      forall k | 0 <= k < |ts| - 1
        ensures ts[k].Colon? || ts[k + 1].Colon?
      {
        if k + 1 < |l| {
          assert ts[k] == l[k] && ts[k + 1] == l[k + 1];
        } else if k >= |l| + 2 {
          assert ts[k] == r[k - |l| - 2] && ts[k + 1] == r[k - |l| - 1];
        }
      }
    }
  }

  function FindChar(s: string, c: char, n: nat): (e: nat)
    requires n <= |s|
    ensures n <= e <= |s| && (forall k :: n <= k < e ==> s[k] != c) && (e < |s| ==> s[e] == c)
    decreases |s| - n
  {
    if n < |s| && s[n] != c then FindChar(s, c, n + 1) else n
  }

  /** The reader: eight groups and the port. */
  function Read(s: string): Option<(seq<nat>, nat)> {
    var e := FindChar(s, ']', 0);
    if e == 0 || e + 2 > |s| || s[0] != '[' || s[e + 1] != ':' then None
    else Some((Expand(Lex(s[1..e])), Value(s[e + 2..], false)))
  }

  lemma {:induction false} FindCharAt(s: string, c: char, n: nat, e: nat)
    requires n <= e < |s| && (forall k :: n <= k < e ==> s[k] != c) && s[e] == c
    ensures FindChar(s, c, n) == e
    decreases |s| - n
  {
    if n < e { FindCharAt(s, c, n + 1, e); }
  }

  lemma ReadParts(body: string, port: string)
    requires forall c :: c in body ==> c == ':' || IsDigit(c)
    ensures Read("[" + body + "]:" + port) == Some((Expand(Lex(body)), Value(port, false)))
  {
    var s := "[" + body + "]:" + port;
    forall k | 0 <= k < |body| + 1
      ensures s[k] != ']'
    {
      if k > 0 { assert s[k] == body[k - 1] && body[k - 1] in body; }
    }
    FindCharAt(s, ']', 0, |body| + 1);
    assert s[1..|body| + 1] == body && s[|body| + 3..] == port && s[|body| + 2] == ':';
  }

  /** Printing loses nothing: the reader gets all eight groups and the port back. */
  lemma PrintIsLossless(g: seq<nat>, port: nat)
    requires |g| == 8
    ensures Read(Printed(g, port)) == Some((g, port))
  {
    ReadParts(Text(Body(g, 0, false)), Digits(port, false));
    BodySeparated(g);
    LexText(Body(g, 0, false));
    ExpandBody(g);
    ValueOfDigits(port, false);
  }

  // ---------------------------------------------------------------------- addresses

  /** The two bytes at `i`, as an uint16_t of the host, swapped on little-endian hosts. */
  function NetworkShort(bytes: seq<byte>, i: nat, host: Endian): nat
    requires i + 2 <= |bytes|
  {
    var v := FromLayout(host, bytes[i..i + 2]);
    if host == Little then Byteswap(v, 2) else v
  }

  /** It is the big-endian number whatever the host. */
  lemma NetworkShortIs(bytes: seq<byte>, i: nat, host: Endian)
    requires i + 2 <= |bytes|
    ensures NetworkShort(bytes, i, host) == (bytes[i] as int) * 256 + bytes[i + 1]
    ensures FromLayout(host, bytes[i..i + 2]) == 0 <==> NetworkShort(bytes, i, host) == 0
  {
    var s := bytes[i..i + 2];
    WireOnto(Big, s);
    ReadIsHostFree(Big, host, FromLayout(Big, s), 2);
    assert Reverse(s) == [s[1], s[0]];
    TwoBytes(s[1], s[0]);
    assert s == [s[0], s[1]];
    TwoBytes(s[0], s[1]);
  }

  lemma TwoBytes(a: byte, b: byte)
    ensures FromLE([a, b]) == a + 256 * b
  {
    assert [a, b][1..] == [b] && [b][1..] == [];
  }

  function Groups(addr: seq<byte>, host: Endian): (g: seq<nat>)
    requires |addr| == 16
    ensures |g| == 8
  {
    seq(8, i requires 0 <= i < 8 => NetworkShort(addr, 2 * i, host))
  }

  /** Different addresses or ports print differently, on any hosts. */
  lemma PrintIsInjective(a: seq<byte>, p: nat, h: Endian, b: seq<byte>, q: nat, k: Endian)
    requires |a| == |b| == 16
    ensures Printed(Groups(a, h), p) == Printed(Groups(b, k), q) ==> a == b && p == q
  {
    PrintIsLossless(Groups(a, h), p);
    PrintIsLossless(Groups(b, k), q);
    if Printed(Groups(a, h), p) == Printed(Groups(b, k), q) {
      GroupsInjective(a, h, b, k);
    }
  }

  lemma GroupsInjective(a: seq<byte>, h: Endian, b: seq<byte>, k: Endian)
    requires |a| == |b| == 16 && Groups(a, h) == Groups(b, k)
    ensures a == b
  {
    forall j | 0 <= j < 16
      ensures a[j] == b[j]
    {
      var i := j / 2;
      SameGroup(a, h, b, k, i);
      assert j == 2 * i || j == 2 * i + 1;
    }
  }

  lemma SameGroup(a: seq<byte>, h: Endian, b: seq<byte>, k: Endian, i: nat)
    requires |a| == |b| == 16 && i < 8 && Groups(a, h)[i] == Groups(b, k)[i]
    ensures a[2 * i] == b[2 * i] && a[2 * i + 1] == b[2 * i + 1]
  {
    NetworkShortIs(a, 2 * i, h);
    NetworkShortIs(b, 2 * i, k);
  }

  /** Group number i of the address, and whether the raw 16 bits are zero. */
  method GroupAt(addr: seq<byte>, i: nat, host: Endian) returns (group: nat, zero: bool)
    requires |addr| == 16 && i < 8
    ensures group == Groups(addr, host)[i] && zero == (group == 0)
  {
    NetworkShortIs(addr, 2 * i, host);
    group, zero := NetworkShort(addr, 2 * i, host), FromLayout(host, addr[2 * i..2 * i + 2]) == 0;
  }

  lemma TextAppend(ts: seq<Token>, t: Token)
    ensures Text(ts + [t]) == Text(ts) + TokenText(t)
  {
    TextConcat(ts, [t]);
    assert [t][1..] == [];
  }

  /** Behind `[`, the tokens written so far. */
  predicate Shown(os: string, ts: seq<Token>) {
    os == "[" + Text(ts)
  }

  method Put(os0: string, t: Token, ghost ts: seq<Token>) returns (os: string)
    requires Shown(os0, ts)
    ensures Shown(os, ts + [t])
  {
    TextAppend(ts, t);
    os := os0 + TokenText(t);
  }

  /** The loop body for a group that is not skipped. */
  method PutGroup(addr: seq<byte>, i: nat, host: Endian, os0: string, used0: bool, ghost ts0: seq<Token>)
    returns (os: string, used: bool, ghost ts: seq<Token>)
    requires |addr| == 16 && i < 8 && Shown(os0, ts0) && (Groups(addr, host)[i] != 0 || used0)
    ensures Shown(os, ts)
    ensures ts + Body(Groups(addr, host), i + 1, used) == ts0 + Body(Groups(addr, host), i, used0)
  {
    ghost var g := Groups(addr, host);
    os, used, ts := os0, used0, ts0;
    if i > 0 {
      var last, zero := GroupAt(addr, i - 1, host);
      if zero && !used {
        os := Put(os, Colon, ts);
        used, ts := true, ts + [Colon];
      }
      os := Put(os, Colon, ts);
      ts := ts + [Colon];
    }
    var group, zero := GroupAt(addr, i, host);
    os := Put(os, Group(group), ts);
    ts := ts + [Group(group)];
    BodyTurn(g, i, used0, used, ts0, ts);
  }

  lemma BodyTurn(g: seq<nat>, i: nat, used0: bool, used: bool, ts0: seq<Token>, ts: seq<Token>)
    requires |g| == 8 && i < 8 && (g[i] != 0 || used0)
    requires
      var gap := i > 0 && g[i - 1] == 0 && !used0;
      && used == (used0 || gap)
      && ts == ts0 + (if gap then [Colon] else []) + (if i > 0 then [Colon] else []) + [Group(g[i])]
    ensures ts + Body(g, i + 1, used) == ts0 + Body(g, i, used0)
  {
  }

  /** IPv6Address::print. */
  method Print(addr: seq<byte>, portBytes: seq<byte>, host: Endian) returns (os: string)
    requires |addr| == 16 && |portBytes| == 2
    ensures os == Printed(Groups(addr, host), NetworkShort(portBytes, 0, host))
  {
    ghost var g := Groups(addr, host);
    os := "[";
    ghost var ts := [];
    var used := false;
    var i: nat := 0;
    while i < 8
      invariant i <= 8 && Shown(os, ts)
      invariant ts + Body(g, i, used) == Body(g, 0, false)
      decreases 8 - i
    {
      var group, zero := GroupAt(addr, i, host);
      if zero && !used {
        i := i + 1;
        continue;
      }
      os, used, ts := PutGroup(addr, i, host, os, used, ts);
      i := i + 1;
    }
    var last, zero := GroupAt(addr, 7, host);
    if !used && zero {
      os := Put(os, Colon, ts);
      os := Put(os, Colon, ts + [Colon]);
      assert ts + [Colon] + [Colon] == ts + [Colon, Colon];
    } else {
      assert ts + [] == ts;
    }
    os := os + "]:" + Digits(NetworkShort(portBytes, 0, host), false);
  }

  /** Hexadecimal in lower case, and decimal. */
  lemma SomeDigits()
    ensures Digits(0x2001, true) == "2001" && Digits(0xdb8, true) == "db8" && Digits(80, false) == "80"
  {
    assert Digits(0x200, true) == "200" && Digits(0xdb, true) == "db";
  }

  lemma ZeroRun(g: seq<nat>)
    requires |g| == 8 && g[0] != 0 && g[1] != 0 && g[2] == g[3] == g[4] == g[5] == g[6] == 0 && g[7] != 0
    ensures Body(g, 0, false) == [Group(g[0]), Colon, Group(g[1]), Colon, Colon, Group(g[7])]
  {
    BodyShape(g);
    assert ZerosStart(g, 0) == 2 && ZerosEnd(g, 2) == 7;
    assert g[..2] == [g[0], g[1]] && [g[0], g[1]][1..] == [g[1]] && g[7..] == [g[7]];
  }

  lemma TextCons(t: Token, ts: seq<Token>)
    ensures Text([t] + ts) == TokenText(t) + Text(ts)
  {
    assert ([t] + ts)[1..] == ts;
  }

  lemma SixTokens(a: nat, b: nat, c: nat)
    ensures Text([Group(a), Colon, Group(b), Colon, Colon, Group(c)]) ==
            Digits(a, true) + (":" + (Digits(b, true) + (":" + (":" + Digits(c, true)))))
  {
    assert Digits(c, true) + "" == Digits(c, true);
    TextCons(Group(c), []);
    TextCons(Colon, [Group(c)]);
    TextCons(Colon, [Colon, Group(c)]);
    TextCons(Group(b), [Colon, Colon, Group(c)]);
    TextCons(Colon, [Group(b), Colon, Colon, Group(c)]);
    TextCons(Group(a), [Colon, Group(b), Colon, Colon, Group(c)]);
  }

  lemma Ungroup(a: string, b: string, c: string)
    ensures a + (":" + (b + (":" + (":" + c)))) == a + ":" + b + "::" + c
  {
  }

  /** The text of an address with a run of zeros inside. */
  lemma Printout(g: seq<nat>, port: nat)
    requires |g| == 8 && g[0] != 0 && g[1] != 0 && g[2] == g[3] == g[4] == g[5] == g[6] == 0 && g[7] != 0
    ensures Printed(g, port) ==
      "[" + (Digits(g[0], true) + ":" + Digits(g[1], true) + "::" + Digits(g[7], true)) + "]:" + Digits(port, false)
  {
    ZeroRun(g);
    SixTokens(g[0], g[1], g[7]);
    Ungroup(Digits(g[0], true), Digits(g[1], true), Digits(g[7], true));
  }
}
