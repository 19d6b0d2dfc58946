/** Addresses as the kernel prints them in /proc/net, and as the agent prints
    them (internal/modules/discovery/parse.go): the canonical text of section 4 of
    RFC 5952, which a reader of that form takes back to the same address. */
module Addresses {
  import opened Wrappers

  // ---- digits ----

  const Digits: string := "0123456789abcdef"
  const UpperDigits: string := "0123456789ABCDEF"

  predicate IsHexDigit(c: char) {
    '0' <= c <= '9' || 'a' <= c <= 'f' || 'A' <= c <= 'F'
  }

  function DigitValue(c: char): nat {
    if '0' <= c <= '9' then c as nat - '0' as nat
    else if 'a' <= c <= 'f' then c as nat - 'a' as nat + 10
    else if 'A' <= c <= 'F' then c as nat - 'A' as nat + 10
    else 0
  }

  lemma DigitRoundTrip(d: nat)
    requires d < 16
    ensures DigitValue(Digits[d]) == d && DigitValue(UpperDigits[d]) == d
    ensures IsFieldChar(Digits[d]) && IsHexDigit(UpperDigits[d]) && UpperDigits[d] != ':' && (Digits[d] == '0' <==> d == 0)
  {
  }

  /** A number in lower-case hexadecimal, without leading zeros. */
  function Hex(n: nat): string {
    if n < 16 then [Digits[n]] else Hex(n / 16) + [Digits[n % 16]]
  }

  /** A number in decimal, without leading zeros. */
  function Dec(n: nat): string {
    if n < 10 then [Digits[n]] else Dec(n / 10) + [Digits[n % 10]]
  }

  function HexValue(s: string): nat {
    if s == "" then 0 else 16 * HexValue(s[..|s|-1]) + DigitValue(s[|s|-1])
  }

  predicate AllHex(s: string) {
    forall i :: 0 <= i < |s| ==> IsHexDigit(s[i])
  }

  /** A digit of the canonical text: lower case, and no colon. */
  predicate IsFieldChar(c: char) {
    IsHexDigit(c) && c != ':' && !('A' <= c <= 'F')
  }

  /** A field of the canonical text, with a leading zero only in "0". */
  ghost predicate IsField(s: string) {
    && s != "" && (s[0] == '0' ==> s == "0")
    && forall i :: 0 <= i < |s| ==> IsFieldChar(s[i])
  }

  lemma NoColonInField(s: string)
    requires IsField(s)
    ensures ':' !in s && forall i :: 0 <= i < |s| ==> s[i] != ':'
  {
  }

  lemma FieldMore(s: string, d: nat)
    requires d < 16 && (s == "" || (IsField(s) && s != "0"))
    ensures IsField(s + [Digits[d]])
    ensures HexValue(s + [Digits[d]]) == 16 * HexValue(s) + d
    ensures s + [Digits[d]] == "0" <==> s == "" && d == 0
  {
    DigitRoundTrip(d);
    DigitAppended(s, Digits[d]);
    HexValueMore(s, Digits[d]);
    hide *;
  }

  lemma DigitAppended(s: string, c: char)
    requires IsFieldChar(c) && (s == "" || (IsField(s) && s != "0"))
    ensures IsField(s + [c]) && (s + [c] == "0" <==> s == "" && c == '0')
  {
    hide IsFieldChar;
    var t := s + [c];
    assert forall i :: 0 <= i < |s| ==> t[i] == s[i];
    assert s == "" ==> t == [c];
    assert c == '0' ==> [c] == "0";
    assert t == "0" ==> |t| == 1 && t[0] == '0';
  }

  lemma HexValueMore(s: string, c: char)
    ensures HexValue(s + [c]) == 16 * HexValue(s) + DigitValue(c)
  {
    hide DigitValue;
    assert (s + [c])[..|s|] == s;
  }

  lemma EmptyValue()
    ensures HexValue("") == 0
  {
  }

  lemma {:induction false} HexIsField(n: nat)
    ensures IsField(Hex(n)) && HexValue(Hex(n)) == n
    ensures Hex(n) == "0" <==> n == 0
  {
    hide IsField, HexValue, DigitValue, IsFieldChar;
    EmptyValue();
    if n < 16 {
      FieldMore("", n);
      assert "" + [Digits[n]] == Hex(n);
    } else {
      HexIsField(n / 16);
      FieldMore(Hex(n / 16), n % 16);
    }
  }

  // ---- joining and splitting at colons ----

  function Join(fs: seq<string>): string {
    if fs == [] then ""
    else if |fs| == 1 then fs[0]
    else Join(fs[..|fs|-1]) + ":" + fs[|fs|-1]
  }

  /** The position of the last colon, or -1. */
  function LastColon(s: string): (i: int)
    ensures -1 <= i < |s|
    ensures i >= 0 ==> s[i] == ':'
    ensures forall j :: i < j < |s| ==> s[j] != ':'
  {
    if s == "" then -1
    else if s[|s|-1] == ':' then |s| - 1
    else LastColon(s[..|s|-1])
  }

  function Split(s: string): seq<string>
    decreases |s|
  {
    var i := LastColon(s);
    if i < 0 then [s] else Split(s[..i]) + [s[i+1..]]
  }

  ghost predicate Fields(fs: seq<string>) {
    forall i :: 0 <= i < |fs| ==> IsField(fs[i])
  }

  /** No two colons stand side by side, and none at either end. */
  ghost predicate SingleColons(s: string) {
    && s != "" && s[0] != ':' && s[|s|-1] != ':'
    && forall i :: 0 <= i < |s| - 1 ==> !(s[i] == ':' && s[i+1] == ':')
  }

  lemma {:induction false} LastColonOf(a: string, b: string)
    requires ':' !in b
    ensures LastColon(a + ":" + b) == |a|
  {
    var s := a + ":" + b;
    if b != "" {
      assert s[|s|-1] == b[|b|-1] && b[|b|-1] in b;
      assert s[..|s|-1] == a + ":" + b[..|b|-1];
      LastColonOf(a, b[..|b|-1]);
    }
  }

  lemma NoColon(s: string)
    requires ':' !in s
    ensures LastColon(s) == -1
  {
    forall j | 0 <= j < |s| ensures s[j] != ':' { assert s[j] in s; }
  }

  lemma {:induction false} JoinSplits(fs: seq<string>)
    requires fs != [] && Fields(fs)
    ensures Split(Join(fs)) == fs && SingleColons(Join(fs))
  {
    hide IsField, SingleColons, Split;
    var last := fs[|fs|-1];
    assert IsField(last);
    if |fs| == 1 {
      FieldAlone(last);
    } else {
      var rest := fs[..|fs|-1];
      JoinSplits(rest);
      JoinOne(Join(rest), last);
      assert Join(fs) == Join(rest) + ":" + last;
    }
  }

  lemma FieldAlone(s: string)
    requires IsField(s)
    ensures Split(s) == [s] && SingleColons(s)
  {
    hide IsFieldChar;
    NoColonInField(s);
    NoColon(s);
  }

  lemma JoinOne(a: string, b: string)
    requires SingleColons(a) && IsField(b)
    ensures SingleColons(a + ":" + b) && Split(a + ":" + b) == Split(a) + [b]
  {
    hide IsFieldChar;
    var s := a + ":" + b;
    NoColonInField(b);
    LastColonOf(a, b);
    assert s[..|a|] == a && s[|a|+1..] == b;
    forall i | 0 <= i < |s| - 1 ensures !(s[i] == ':' && s[i+1] == ':') {
      if i < |a| - 1 { assert s[i] == a[i] && s[i+1] == a[i+1]; }
      if i > |a| { assert s[i] == b[i - |a| - 1]; }
    }
  }

  // ---- the canonical text ----

  /** An address as its eight 16-bit fields. */
  type Groups = s: seq<nat> | |s| == 8 && forall i :: 0 <= i < 8 ==> s[i] < 65536
    witness [0, 0, 0, 0, 0, 0, 0, 0]

  function HexAll(g: seq<nat>): seq<string> {
    if g == [] then [] else HexAll(g[..|g|-1]) + [Hex(g[|g|-1])]
  }

  /** Fields `start` to `start + len` are zero. */
  ghost predicate ZeroRun(g: seq<nat>, start: int, len: int) {
    0 <= start && 0 <= len && start + len <= |g| && forall i :: start <= i < start + len ==> g[i] == 0
  }

  /** The first of the longest runs of zero fields, if it is at least two long
      (sections 4.2.2 and 4.2.3 of RFC 5952); otherwise no run at all. */
  ghost predicate BestRun(g: seq<nat>, start: int, len: int) {
    if len == 0 then start == -1 && forall s :: !ZeroRun(g, s, 2)
    else
      && len >= 2 && ZeroRun(g, start, len)
      && (forall s, l :: ZeroRun(g, s, l) ==> l <= len)
      && (forall s :: ZeroRun(g, s, len) ==> start <= s)
  }

  /** The text with that run, if any, written as "::". */
  function Text(g: seq<nat>, start: int, len: int): string
    requires len == 0 || (0 <= start && 0 <= len && start + len <= |g|)
  {
    if len == 0 then Join(HexAll(g))
    else Join(HexAll(g[..start])) + "::" + Join(HexAll(g[start + len..]))
  }

  /** The canonical text of section 4 of RFC 5952. */
  ghost predicate IsCanonical(g: Groups, s: string) {
    exists start, len :: BestRun(g, start, len) && s == Text(g, start, len)
  }

  lemma RunIffZeros(g: seq<nat>, start: int, len: int)
    requires BestRun(g, start, len)
    ensures len == 0 <==> forall s :: !ZeroRun(g, s, 2)
  {
    if len != 0 { assert ZeroRun(g, start, 2); }
  }

  lemma BestRunIsUnique(g: Groups, s1: int, l1: int, s2: int, l2: int)
    requires BestRun(g, s1, l1) && BestRun(g, s2, l2)
    ensures s1 == s2 && l1 == l2
  {
    hide ZeroRun;
    RunIffZeros(g, s1, l1);
    RunIffZeros(g, s2, l2);
  }

  /** Each address has exactly one canonical text. */
  lemma CanonicalIsUnique(g: Groups, a: string, b: string)
    requires IsCanonical(g, a) && IsCanonical(g, b)
    ensures a == b
  {
    var s1, l1 :| BestRun(g, s1, l1) && a == Text(g, s1, l1);
    var s2, l2 :| BestRun(g, s2, l2) && b == Text(g, s2, l2);
    BestRunIsUnique(g, s1, l1, s2, l2);
  }

  // ---- reading the text back ----

  /** The first position of "::", or -1. */
  function DoubleColon(s: string): (i: int)
    ensures -1 <= i < |s|
  {
    if |s| < 2 then -1
    else if s[0] == ':' && s[1] == ':' then 0
    else
      var i := DoubleColon(s[1..]);
      if i < 0 then -1 else i + 1
  }

  function Values(fs: seq<string>): seq<nat> {
    if fs == [] then [] else Values(fs[..|fs|-1]) + [HexValue(fs[|fs|-1])]
  }

  function Side(s: string): seq<nat> {
    if s == "" then [] else Values(Split(s))
  }

  function Zeros(n: nat): seq<nat> {
    seq(n, _ => 0)
  }

  /** The fields an address text stands for: "::" fills up with zero fields. */
  function Read(s: string): Option<seq<nat>> {
    var i := DoubleColon(s);
    if i < 0 then
      if |Side(s)| == 8 then Some(Side(s)) else None
    else if i + 2 > |s| then None
    else
      var left, right := Side(s[..i]), Side(s[i + 2..]);
      if |left| + |right| > 8 then None else Some(left + Zeros(8 - |left| - |right|) + right)
  }

  lemma {:induction false} HexAllFields(g: seq<nat>)
    ensures |HexAll(g)| == |g| && Fields(HexAll(g)) && Values(HexAll(g)) == g
  {
    hide Hex, HexValue, IsField;
    if g == [] {
      assert Fields([]);
    } else {
      var rest, last := HexAll(g[..|g|-1]), Hex(g[|g|-1]);
      HexAllFields(g[..|g|-1]);
      HexIsField(g[|g|-1]);
      FieldsMore(rest, last);
      ValuesMore(rest, last);
      assert g == g[..|g|-1] + [g[|g|-1]];
    }
  }

  lemma FieldsMore(fs: seq<string>, f: string)
    requires Fields(fs) && IsField(f)
    ensures Fields(fs + [f])
  {
    hide IsField;
  }

  lemma ValuesMore(fs: seq<string>, f: string)
    ensures Values(fs + [f]) == Values(fs) + [HexValue(f)]
  {
    hide HexValue;
    assert (fs + [f])[..|fs|] == fs;
  }

  /** One side of the text is read back. */
  lemma SideRoundTrip(g: seq<nat>)
    ensures Side(Join(HexAll(g))) == g
    ensures g != [] ==> SingleColons(Join(HexAll(g)))
    ensures g == [] ==> Join(HexAll(g)) == ""
  {
    HexAllFields(g);
    if g != [] { JoinSplits(HexAll(g)); }
  }

  lemma {:induction false} NoDouble(s: string)
    requires forall i :: 0 <= i < |s| - 1 ==> !(s[i] == ':' && s[i+1] == ':')
    ensures DoubleColon(s) < 0
  {
    if |s| >= 2 {
      assert s[0] != ':' || s[1] != ':';
      forall i | 0 <= i < |s[1..]| - 1 ensures !(s[1..][i] == ':' && s[1..][i+1] == ':') {
        assert s[1..][i] == s[i+1] && s[1..][i+1] == s[i+2];
      }
      NoDouble(s[1..]);
    }
  }

  lemma FirstDouble(a: string, b: string)
    requires a == "" || SingleColons(a)
    ensures DoubleColon(a + "::" + b) == |a|
  {
    if a != "" {
      DoubleFrom(a, b, 0);
      assert a[0..] == a;
    }
  }

  lemma {:induction false} DoubleFrom(a: string, b: string, k: nat)
    requires SingleColons(a) && k <= |a|
    ensures DoubleColon(a[k..] + "::" + b) == |a| - k
    decreases |a| - k
  {
    var s := a[k..] + "::" + b;
    if k < |a| {
      DoubleFrom(a, b, k + 1);
      assert s[1..] == a[k+1..] + "::" + b;
      assert s[0] == a[k];
      if k + 1 < |a| { assert s[1] == a[k+1]; } else { assert a[k] != ':'; }
    }
  }

  /** A reader of the form recovers the address. */
  lemma CanonicalRoundTrip(g: Groups, s: string)
    requires IsCanonical(g, s)
    ensures Read(s) == Some(g)
  {
    hide Side, Join, HexAll, DoubleColon;
    var start, len :| BestRun(g, start, len) && s == Text(g, start, len);
    if len == 0 {
      SideRoundTrip(g);
      NoDouble(s);
    } else {
      var left, right := g[..start], g[start + len..];
      SideRoundTrip(left);
      SideRoundTrip(right);
      var a, b := Join(HexAll(left)), Join(HexAll(right));
      FirstDouble(a, b);
      assert s[..|a|] == a && s[|a| + 2..] == b;
      assert left + Zeros(8 - |left| - |right|) + right == g;
    }
  }

  /** So two addresses never share a text. */
  lemma TextIdentifies(g: Groups, h: Groups, s: string)
    requires IsCanonical(g, s) && IsCanonical(h, s)
    ensures g == h
  {
    CanonicalRoundTrip(g, s);
    CanonicalRoundTrip(h, s);
  }

  // ---- the printer ----

  type Byte = x: int | 0 <= x < 256

  function FormatIPv4(b: seq<Byte>): string
    requires |b| == 4
  {
    Dec(b[0]) + "." + Dec(b[1]) + "." + Dec(b[2]) + "." + Dec(b[3])
  }

  /** The first ten bytes are zero and the next two are ff. */
  predicate IsMapped(b: seq<Byte>)
    requires |b| == 16
  {
    (forall i :: 0 <= i < 10 ==> b[i] == 0) && b[10] == 0xff && b[11] == 0xff
  }

  function GroupsOf(b: seq<Byte>): Groups
    requires |b| == 16
  {
    seq(8, i requires 0 <= i < 8 => b[2 * i] as int * 256 + b[2 * i + 1] as int)
  }

  /** An IPv4-mapped address is printed as IPv4, any other in canonical form. */
  ghost predicate IsPrinted(b: seq<Byte>, s: string)
    requires |b| == 4 || |b| == 16
  {
    if |b| == 4 then s == FormatIPv4(b)
    else if IsMapped(b) then s == FormatIPv4(b[12..16])
    else IsCanonical(GroupsOf(b), s)
  }

  /** The first longest run among the first `i` fields. */
  ghost predicate BestUpTo(g: seq<nat>, i: int, start: int, len: int) {
    && 0 <= i <= |g|
    && (if len == 0 then start == -1 else len > 0 && ZeroRun(g, start, len) && start + len <= i)
    && (forall s, l :: ZeroRun(g, s, l) && s + l <= i ==> l <= len)
    && (forall s :: ZeroRun(g, s, len) && s + len <= i ==> start <= s)
  }

  /** The run of zero fields that ends just before `i`. */
  ghost predicate CurrentRun(g: seq<nat>, i: int, start: int, len: int) {
    && 0 <= i <= |g| && 0 <= len <= i && ZeroRun(g, i - len, len) && (i > len ==> g[i - len - 1] != 0)
    && start == if len == 0 then -1 else i - len
  }

  lemma RunEndsHere(g: seq<nat>, i: int, start: int, len: int, s: int, l: int)
    requires CurrentRun(g, i, start, len) && ZeroRun(g, s, l) && s + l == i
    ensures l <= len
  {
    assert i > len ==> !(s <= i - len - 1 < s + l);
  }

  lemma OneMoreField(g: seq<nat>, i: nat, bestStart: int, bestLen: int, curStart: int, curLen: int)
    requires i < |g| && BestUpTo(g, i, bestStart, bestLen) && CurrentRun(g, i, curStart, curLen)
    ensures g[i] != 0 ==> CurrentRun(g, i + 1, -1, 0) && BestUpTo(g, i + 1, bestStart, bestLen)
    ensures g[i] == 0 ==> CurrentRun(g, i + 1, i - curLen, curLen + 1)
    ensures g[i] == 0 && curLen + 1 > bestLen ==> BestUpTo(g, i + 1, i - curLen, curLen + 1)
    ensures g[i] == 0 && curLen + 1 <= bestLen ==> BestUpTo(g, i + 1, bestStart, bestLen)
  {
    forall s, l | ZeroRun(g, s, l) && s + l == i + 1 && l > 0 ensures g[i] == 0 && l <= curLen + 1 {
      assert ZeroRun(g, s, l - 1);
      RunEndsHere(g, i, curStart, curLen, s, l - 1);
    }
    if g[i] == 0 { assert ZeroRun(g, i - curLen, curLen + 1); }
  }

  method FindRun(g: seq<nat>) returns (bestStart: int, bestLen: int)
    ensures BestRun(g, bestStart, bestLen)
  {
    var curStart, curLen := -1, 0;
    bestStart, bestLen := -1, 0;
    assert BestUpTo(g, 0, -1, 0) && CurrentRun(g, 0, -1, 0);
    for i := 0 to |g|
      invariant BestUpTo(g, i, bestStart, bestLen) && CurrentRun(g, i, curStart, curLen) && bestLen >= 0
      invariant curStart == if curLen == 0 then -1 else i - curLen
      invariant curLen >= 0
    {
      OneMoreField(g, i, bestStart, bestLen, curStart, curLen);
      if g[i] == 0 {
        if curStart < 0 { curStart := i; }
        curLen := curLen + 1;
        if curLen > bestLen { bestStart, bestLen := curStart, curLen; }
        continue;
      }
      curStart, curLen := -1, 0;
    }
    BestOfAll(g, bestStart, bestLen);
    if bestLen < 2 { bestStart, bestLen := -1, 0; }
  }

  lemma BestOfAll(g: seq<nat>, start: int, len: int)
    requires BestUpTo(g, |g|, start, len)
    ensures if len < 2 then BestRun(g, -1, 0) else BestRun(g, start, len)
  {
    if len < 2 {
      forall s ensures !ZeroRun(g, s, 2) { }
    }
  }

  // ---- rendering ----

  /** The part of the text for the first `i` fields. */
  function Prefix(g: seq<nat>, start: int, len: int, i: nat): string
    requires i <= |g|
    requires len == 0 || (0 <= start && 0 < len && start + len <= |g|)
  {
    if len == 0 || i <= start then Join(HexAll(g[..i]))
    else Join(HexAll(g[..start])) + "::" + Join(HexAll(g[start + len..if i < start + len then start + len else i]))
  }

  lemma JoinMore(g: seq<nat>, n: nat)
    ensures Join(HexAll(g + [n])) == Join(HexAll(g)) + (if g == [] then "" else ":") + Hex(n)
  {
    hide Hex, IsField;
    HexAllFields(g);
    assert (g + [n])[..|g|] == g;
    assert HexAll(g + [n]) == HexAll(g) + [Hex(n)];
  }

  function Separator(out: string): string {
    if out != "" && out[|out|-1] != ':' then ":" else ""
  }

  lemma SeparatorOf(before: string, done: seq<nat>)
    requires before == "" || (|before| >= 2 && before[|before|-1] == ':')
    ensures Separator(before + Join(HexAll(done))) == if done == [] then "" else ":"
  {
    hide Hex, HexAll, Join;
    JoinEnds(done);
    var j := Join(HexAll(done));
    if done != [] { assert (before + j)[|before + j|-1] == j[|j|-1]; } else { assert before + j == before; }
  }

  /** One more field is appended after a colon, except at the start and after "::". */
  lemma PrefixMore(g: seq<nat>, start: int, len: int, i: nat)
    requires i < |g| && (len == 0 || (0 <= start && 0 < len && start + len <= |g|))
    requires len == 0 || i < start || start + len <= i
    ensures Prefix(g, start, len, i + 1) == Prefix(g, start, len, i) + Separator(Prefix(g, start, len, i)) + Hex(g[i])
  {
    hide Hex, HexAll, Join, Separator;
    if len == 0 || i < start {
      SeparatorOf("", g[..i]);
      JoinMore(g[..i], g[i]);
      assert g[..i + 1] == g[..i] + [g[i]];
      assert "" + Join(HexAll(g[..i])) == Prefix(g, start, len, i);
    } else {
      var before := Join(HexAll(g[..start])) + "::";
      AfterRun(g, start, len, i, before);
    }
  }

  lemma AfterRun(g: seq<nat>, start: int, len: int, i: nat, before: string)
    requires i < |g| && 0 <= start && 0 < len && start + len <= i && before == Join(HexAll(g[..start])) + "::"
    ensures Prefix(g, start, len, i + 1) == Prefix(g, start, len, i) + Separator(Prefix(g, start, len, i)) + Hex(g[i])
  {
    hide Hex, HexAll, Join, Separator;
    var done := g[start + len..i];
    SeparatorOf(before, done);
    JoinMore(done, g[i]);
    assert g[start + len..i + 1] == done + [g[i]];
    assert Prefix(g, start, len, i) == before + Join(HexAll(done));
    assert Prefix(g, start, len, i + 1) == before + Join(HexAll(done + [g[i]]));
  }

  lemma JoinEnds(g: seq<nat>)
    ensures g == [] ==> Join(HexAll(g)) == ""
    ensures g != [] ==> Join(HexAll(g)) != "" && Join(HexAll(g))[|Join(HexAll(g))|-1] != ':'
  {
    hide Hex, HexAll, Join;
    SideRoundTrip(g);
  }

  /** Render eight fields, with the first longest run of zeros as "::". */
  method Render(g: Groups) returns (out: string)
    ensures IsCanonical(g, out)
  {
    hide *;
    var bestStart, bestLen := FindRun(g);
    RunFits(g, bestStart, bestLen);
    NoPrefix(g, bestStart, bestLen);
    out := "";
    var i := 0;
    while i < 8
      invariant 0 <= i <= 8 && out == Prefix(g, bestStart, bestLen, i)
      invariant bestLen == 0 || i <= bestStart || bestStart + bestLen <= i
    {
      if i == bestStart {
        RunIsSkipped(g, bestStart, bestLen);
        out := out + "::";
        i := i + bestLen;
      } else {
        PrefixMore(g, bestStart, bestLen, i);
        out := AppendField(out, g[i]);
        i := i + 1;
      }
    }
    WholeText(g, bestStart, bestLen);
    if |out| == 0 { return "::"; }
  }

  method AppendField(before: string, n: nat) returns (out: string)
    ensures out == before + Separator(before) + Hex(n)
  {
    out := before;
    if |out| > 0 && out[|out|-1] != ':' { out := out + ":"; }
    out := out + Hex(n);
  }

  lemma NoPrefix(g: Groups, start: int, len: int)
    requires len == 0 || (0 <= start && 0 < len && start + len <= 8)
    ensures Prefix(g, start, len, 0) == ""
  {
  }

  lemma RunFits(g: Groups, start: int, len: int)
    requires BestRun(g, start, len)
    ensures len == 0 ==> start == -1
    ensures len != 0 ==> 0 <= start && 2 <= len && start + len <= 8
  {
  }

  lemma RunIsSkipped(g: Groups, start: int, len: int)
    requires 0 <= start && 0 < len && start + len <= 8
    ensures Prefix(g, start, len, start + len) == Prefix(g, start, len, start) + "::"
  {
    assert g[start + len..start + len] == [];
  }

  lemma WholeText(g: Groups, start: int, len: int)
    requires BestRun(g, start, len) && (len == 0 || (0 <= start && 0 < len && start + len <= 8))
    ensures IsCanonical(g, Prefix(g, start, len, 8)) && Prefix(g, start, len, 8) != ""
  {
    hide Hex, HexAll, Join, BestRun;
    assert g[..8] == g;
    JoinEnds(g);
    assert Prefix(g, start, len, 8) == Text(g, start, len) by { if len != 0 { assert g[start + len..8] == g[start + len..]; } }
  }

  method FormatIPv6(b: seq<Byte>) returns (s: string)
    requires |b| == 16
    ensures IsPrinted(b, s)
  {
    var isV4Mapped := true;
    var i := 0;
    while i < 10
      invariant 0 <= i <= 10 && isV4Mapped && forall j :: 0 <= j < i ==> b[j] == 0
    {
      if b[i] != 0 {
        isV4Mapped := false;
        break;
      }
      i := i + 1;
    }
    if isV4Mapped && b[10] == 0xff && b[11] == 0xff {
      return FormatIPv4(b[12..16]);
    }
    var groups := GroupsOf(b);
    s := Render(groups);
  }

  // ---- the kernel's text ----

  datatype Decoded = Decoded(bytes: seq<Byte>, port: nat)

  /** A word's bytes, lowest first. */
  function WordBytes(v: nat): seq<Byte> {
    [v % 256, v / 256 % 256, v / 256 / 256 % 256, v / 256 / 256 / 256 % 256]
  }

  function ParseHex(s: string): Option<nat> {
    if s == "" || !AllHex(s) then None else Some(HexValue(s))
  }

  /** The bytes of the first `n` eight-digit words. */
  function WordsOf(hex: string, n: nat): seq<Byte>
    requires n * 8 <= |hex|
  {
    if n == 0 then [] else WordsOf(hex, n - 1) + WordBytes(HexValue(hex[(n - 1) * 8..n * 8]))
  }

  /** "ADDRESS:PORT" in hexadecimal: the address as little-endian 32-bit words, the
      port as a plain number. */
  function Decode(s: string): Option<Decoded> {
    var colon := LastColon(s);
    if colon < 0 then None
    else
      var port, hex := ParseHex(s[colon + 1..]), s[..colon];
      if port.None? || port.value >= 65536 then None
      else if (|hex| == 8 || |hex| == 32) && AllHex(hex) then Some(Decoded(WordsOf(hex, |hex| / 8), port.value))
      else None
  }

  /** Decode and print; `addr` and `port` mean something only if `ok`. */
  method ParseHexAddr(s: string) returns (addr: string, port: nat, ok: bool)
    ensures ok == Decode(s).Some?
    ensures ok ==> port == Decode(s).value.port
    ensures ok ==> (|Decode(s).value.bytes| == 4 || |Decode(s).value.bytes| == 16) && IsPrinted(Decode(s).value.bytes, addr)
  {
    hide HexValue;
    addr, port, ok := "", 0, false;
    var colon := LastColon(s);
    if colon < 0 { return; }
    var p := ParseHex(s[colon + 1..]);
    if p.None? || p.value >= 65536 { return; }
    var hex := s[..colon];
    if |hex| == 8 {
      var v := ParseHex(hex);
      if v.None? { return; }
      assert hex[0..8] == hex && WordsOf(hex, 0) == [] && WordsOf(hex, 1) == WordBytes(v.value);
      addr := FormatIPv4(WordBytes(v.value));
      assert IsPrinted(WordBytes(v.value), addr);
      return addr, p.value, true;
    } else if |hex| == 32 {
      var good, b := ParseWords(hex);
      if !good { return; }
      addr := FormatIPv6(b);
      return addr, p.value, true;
    }
  }

  method ParseWords(hex: string) returns (ok: bool, b: seq<Byte>)
    requires |hex| == 32
    ensures ok == AllHex(hex)
    ensures ok ==> b == WordsOf(hex, 4) && |b| == 16
  {
    hide HexValue, AllHex, IsHexDigit;
    ok, b := true, [];
    var w := 0;
    NoDigits();
    while w < 4
      invariant 0 <= w <= 4 && |b| == 4 * w && b == WordsOf(hex, w)
      invariant AllHex(hex[..w * 8])
    {
      var word := hex[w * 8..w * 8 + 8];
      var v := ParseHex(word);
      AllHexMore(hex, w * 8, w * 8 + 8);
      AllHexMore(hex, w * 8 + 8, 32);
      assert hex[..32] == hex;
      if v.None? { return false, []; }
      b := b + WordBytes(v.value);
      w := w + 1;
    }
    assert hex[..32] == hex;
  }

  lemma NoDigits()
    ensures AllHex("")
  {
  }

  lemma AllHexMore(s: string, a: nat, b: nat)
    requires a <= b <= |s|
    ensures AllHex(s[..b]) <==> AllHex(s[..a]) && AllHex(s[a..b])
  {
    hide IsHexDigit;
    if AllHex(s[..b]) {
      forall i | 0 <= i < b - a ensures IsHexDigit(s[a..b][i]) { assert s[a..b][i] == s[..b][a + i]; }
      forall i | 0 <= i < a ensures IsHexDigit(s[..a][i]) { assert s[..a][i] == s[..b][i]; }
    }
    if AllHex(s[..a]) && AllHex(s[a..b]) {
      forall i | 0 <= i < b ensures IsHexDigit(s[..b][i]) {
        if i < a { assert s[..b][i] == s[..a][i]; } else { assert s[..b][i] == s[a..b][i - a]; }
      }
    }
  }

  // ---- the kernel prints, the agent decodes ----

  /** Zero-padded upper-case hexadecimal. */
  function Padded(n: nat, width: nat): string {
    if width == 0 then "" else Padded(n / 16, width - 1) + [UpperDigits[n % 16]]
  }

  function Power16(width: nat): nat {
    if width == 0 then 1 else 16 * Power16(width - 1)
  }

  lemma {:induction false} PaddedRoundTrip(n: nat, width: nat)
    requires n < Power16(width)
    ensures |Padded(n, width)| == width && AllHex(Padded(n, width)) && HexValue(Padded(n, width)) == n
    ensures ':' !in Padded(n, width)
  {
    if width > 0 {
      PaddedRoundTrip(n / 16, width - 1);
      DigitRoundTrip(n % 16);
      var s := Padded(n, width);
      assert s[..|s|-1] == Padded(n / 16, width - 1);
    }
  }

  /** A 32-bit word as a little-endian host reads it from four address bytes. */
  function WordOf(b: seq<Byte>): nat
    requires |b| == 4
  {
    b[0] as int + 256 * (b[1] as int + 256 * (b[2] as int + 256 * (b[3] as int)))
  }

  lemma LowByte(a: nat, rest: nat)
    requires a < 256
    ensures (a + 256 * rest) % 256 == a && (a + 256 * rest) / 256 == rest
  {
  }

  lemma FourBytes(a: nat, b: nat, c: nat, d: nat)
    requires a < 256 && b < 256 && c < 256 && d < 256
    ensures var v := a + 256 * (b + 256 * (c + 256 * d));
      && v % 256 == a && v / 256 % 256 == b && v / 256 / 256 % 256 == c && v / 256 / 256 / 256 % 256 == d
      && v < 4294967296
  {
    LowByte(a, b + 256 * (c + 256 * d));
    LowByte(b, c + 256 * d);
    LowByte(c, d);
  }

  lemma WordRoundTrip(b: seq<Byte>)
    requires |b| == 4
    ensures WordOf(b) < Power16(8) && WordBytes(WordOf(b)) == b
  {
    hide Power16;
    PowerOf8();
    FourBytes(b[0], b[1], b[2], b[3]);
  }

  lemma PowerOf8()
    ensures Power16(4) == 65536 && Power16(8) == 4294967296
  {
    assert Power16(4) == 16 * Power16(3) && Power16(3) == 16 * Power16(2) && Power16(2) == 16 * Power16(1);
    assert Power16(8) == 16 * Power16(7) && Power16(7) == 16 * Power16(6) && Power16(6) == 16 * Power16(5) && Power16(5) == 16 * Power16(4);
  }

  /** An address as the kernel prints it: one word after the other. */
  function KernelHex(b: seq<Byte>): string
    requires |b| % 4 == 0
  {
    if b == [] then "" else KernelHex(b[..|b|-4]) + Padded(WordOf(b[|b|-4..]), 8)
  }

  function KernelText(b: seq<Byte>, port: nat): string
    requires |b| % 4 == 0
  {
    KernelHex(b) + ":" + Padded(port, 4)
  }

  lemma {:induction false} WordsOfPrefix(hex: string, more: string, n: nat)
    requires n * 8 <= |hex|
    ensures WordsOf(hex + more, n) == WordsOf(hex, n)
  {
    hide HexValue, WordBytes;
    if n > 0 {
      WordsOfPrefix(hex, more, n - 1);
      assert (hex + more)[(n - 1) * 8..n * 8] == hex[(n - 1) * 8..n * 8];
    }
  }

  lemma {:induction false} KernelHexDecodes(b: seq<Byte>)
    requires |b| % 4 == 0
    ensures |KernelHex(b)| == 2 * |b| && AllHex(KernelHex(b)) && ':' !in KernelHex(b)
    ensures WordsOf(KernelHex(b), |b| / 4) == b
  {
    hide HexValue, Padded, IsHexDigit, WordBytes, WordOf, Power16;
    if b != [] {
      var rest, word := b[..|b|-4], b[|b|-4..];
      var n := |rest| / 4;
      KernelHexDecodes(rest);
      WordRoundTrip(word);
      PaddedRoundTrip(WordOf(word), 8);
      var head, tail := KernelHex(rest), Padded(WordOf(word), 8);
      assert KernelHex(b) == head + tail;
      WordsOfPrefix(head, tail, n);
      assert n * 8 == |head| && (n + 1) * 8 == |head + tail|;
      assert (head + tail)[n * 8..(n + 1) * 8] == tail;
      assert |b| / 4 == n + 1;
      assert WordsOf(head + tail, n + 1) == WordsOf(head + tail, n) + WordBytes(HexValue(tail));
    }
  }

  /** Whatever address and port the kernel prints, the decoder recovers them, so
      the text the agent files is the printed form of that very address. */
  lemma KernelRoundTrip(b: seq<Byte>, port: nat)
    requires (|b| == 4 || |b| == 16) && port < 65536
    ensures Decode(KernelText(b, port)) == Some(Decoded(b, port))
  {
    hide HexValue, Padded, WordsOf, KernelHex, AllHex, Power16;
    KernelHexDecodes(b);
    PowerOf8();
    PaddedRoundTrip(port, 4);
    var hex, tail := KernelHex(b), Padded(port, 4);
    LastColonOf(hex, tail);
    var s := KernelText(b, port);
    assert s[..|hex|] == hex && s[|hex| + 1..] == tail;
  }

  // ---- reading the printed text back to bytes ----

  function DecValue(s: string): nat {
    if s == "" then 0 else 10 * DecValue(s[..|s|-1]) + DigitValue(s[|s|-1])
  }

  /** The position of the first dot, or the end. */
  function FirstDot(s: string): (i: nat)
    ensures i <= |s|
  {
    if s == "" || s[0] == '.' then 0 else 1 + FirstDot(s[1..])
  }

  /** `n` decimal numbers, with dots in between. */
  function Octets(s: string, n: nat): seq<nat>
    requires n > 0
    decreases n
  {
    if n == 1 then [DecValue(s)]
    else
      var i := FirstDot(s);
      [DecValue(s[..i])] + Octets(if i < |s| then s[i + 1..] else "", n - 1)
  }

  /** Each field is two bytes, the higher first. */
  function BytesOf(g: seq<nat>): seq<nat> {
    seq(2 * |g|, i requires 0 <= i < 2 * |g| => if i % 2 == 0 then g[i / 2] / 256 else g[i / 2] % 256)
  }

  /** The bytes an address text stands for, of either family. */
  function ReadBytes(s: string): Option<seq<nat>> {
    if ':' in s then
      match Read(s)
      case Some(g) => Some(BytesOf(g))
      case None => None
    else Some(Octets(s, 4))
  }

  lemma DecDigit(d: nat)
    requires d < 10
    ensures DigitValue(Digits[d]) == d && Digits[d] != '.' && Digits[d] != ':'
  {
  }

  lemma {:induction false} DecRoundTrip(n: nat)
    ensures DecValue(Dec(n)) == n && '.' !in Dec(n) && ':' !in Dec(n)
  {
    hide DigitValue;
    DecDigit(n % 10);
    if n >= 10 {
      DecRoundTrip(n / 10);
      assert Dec(n)[..|Dec(n)|-1] == Dec(n / 10);
    } else {
      assert Dec(n)[..0] == "";
    }
  }

  lemma {:induction false} DotAfter(a: string, b: string)
    requires '.' !in a
    ensures FirstDot(a + "." + b) == |a|
  {
    if a != "" {
      assert (a + "." + b)[1..] == a[1..] + "." + b;
      DotAfter(a[1..], b);
    }
  }

  lemma OneOctet(n: nat, rest: string, k: nat)
    requires k > 1
    ensures Octets(Dec(n) + "." + rest, k) == [n] + Octets(rest, k - 1)
  {
    DecRoundTrip(n);
    DotAfter(Dec(n), rest);
    var s := Dec(n) + "." + rest;
    assert s[..|Dec(n)|] == Dec(n) && s[|Dec(n)| + 1..] == rest;
    hide Dec, DecValue, FirstDot;
  }

  lemma IPv4ReadsBack(b: seq<Byte>)
    requires |b| == 4
    ensures ':' !in FormatIPv4(b)
    ensures ReadBytes(FormatIPv4(b)) == Some([b[0] as nat, b[1] as nat, b[2] as nat, b[3] as nat])
  {
    hide Dec, DecValue, Octets, FirstDot, Read, BytesOf;
    var s2 := Dec(b[2]) + "." + Dec(b[3]);
    var s1 := Dec(b[1]) + "." + s2;
    assert FormatIPv4(b) == Dec(b[0]) + "." + s1;
    DecRoundTrip(b[0]);
    DecRoundTrip(b[1]);
    DecRoundTrip(b[2]);
    DecRoundTrip(b[3]);
    OneOctet(b[0], s1, 4);
    OneOctet(b[1], s2, 3);
    OneOctet(b[2], Dec(b[3]), 2);
    LastOctet(b[3]);
    assert ':' !in s2 && ':' !in s1;
    var s := FormatIPv4(b);
    assert ':' !in s;
    assert ReadBytes(s) == Some(Octets(s, 4));
    assert Octets(s, 4) == [b[0] as nat] + ([b[1] as nat] + ([b[2] as nat] + [b[3] as nat]));
    assert Octets(s, 4) == [b[0] as nat, b[1] as nat, b[2] as nat, b[3] as nat];
  }

  lemma LastOctet(n: nat)
    ensures Octets(Dec(n), 1) == [n]
  {
    DecRoundTrip(n);
  }

  lemma GroupsReadBack(b: seq<Byte>)
    requires |b| == 16
    ensures BytesOf(GroupsOf(b)) == seq(16, i requires 0 <= i < 16 => b[i] as nat)
  {
    var g := GroupsOf(b);
    forall i | 0 <= i < 16 ensures BytesOf(g)[i] == b[i] {
      assert g[i / 2] == b[2 * (i / 2)] as int * 256 + b[2 * (i / 2) + 1] as int;
    }
  }

  lemma CanonicalHasColon(g: Groups, s: string)
    requires IsCanonical(g, s)
    ensures ':' in s
  {
    hide Join, HexAll;
    var start, len :| BestRun(g, start, len) && s == Text(g, start, len);
    if len == 0 {
      JoinHasColon(g);
    } else {
      assert s[|Join(HexAll(g[..start]))|] == ':';
    }
  }

  lemma JoinHasColon(g: Groups)
    ensures ':' in Join(HexAll(g))
  {
    var fs := HexAll(g);
    HexAllFields(g);
    assert |fs| == 8;
    hide HexAll;
    var rest := Join(fs[..7]);
    assert Join(fs) == rest + ":" + fs[7];
    assert Join(fs)[|rest|] == ':';
  }

  /** Whatever is printed, a reader of either family recovers the bytes; of an
      IPv4-mapped address, the last four. */
  lemma PrintedReadsBack(b: seq<Byte>, s: string)
    requires (|b| == 4 || |b| == 16) && IsPrinted(b, s)
    ensures ReadBytes(s) ==
      if |b| == 4 then Some([b[0] as nat, b[1] as nat, b[2] as nat, b[3] as nat])
      else if (forall i :: 0 <= i < 10 ==> b[i] == 0) && b[10] == 255 && b[11] == 255
      then Some([b[12] as nat, b[13] as nat, b[14] as nat, b[15] as nat])
      else Some(seq(16, i requires 0 <= i < 16 => b[i] as nat))
  {
    hide IsCanonical, Read, Octets, BytesOf, FormatIPv4, GroupsOf;
    if |b| == 4 {
      IPv4ReadsBack(b);
    } else if IsMapped(b) {
      IPv4ReadsBack(b[12..16]);
    } else {
      CanonicalHasColon(GroupsOf(b), s);
      CanonicalRoundTrip(GroupsOf(b), s);
      GroupsReadBack(b);
    }
  }

  /** Numbers as people write them. */
  lemma NumbersAreWritten()
    ensures Hex(0) == "0" && Hex(0x1a) == "1a" && Hex(0xdb8) == "db8"
    ensures Dec(0) == "0" && Dec(7) == "7" && Dec(127) == "127"
  {
    assert Hex(0xdb8) == Hex(0xdb) + "8" && Hex(0xdb) == Hex(0xd) + "b";
    assert Dec(127) == Dec(12) + "7" && Dec(12) == Dec(1) + "2";
  }

  lemma NumbersAreRead()
    ensures HexValue("1F") == 31 && HexValue("0016") == 22
  {
    hide HexValue, DigitValue;
    EmptyValue();
    HexValueMore("", '1');
    HexValueMore("1", 'F');
    HexValueMore("", '0');
    HexValueMore("0", '0');
    HexValueMore("00", '1');
    HexValueMore("001", '6');
    assert "1" + ['F'] == "1F" && "" + ['1'] == "1" && "001" + ['6'] == "0016" && "00" + ['1'] == "001";
    assert "0" + ['0'] == "00" && "" + ['0'] == "0";
    SomeDigits();
  }

  lemma SomeDigits()
    ensures DigitValue('0') == 0 && DigitValue('1') == 1 && DigitValue('6') == 6 && DigitValue('F') == 15
  {
  }

  /** The kernel's line for port 22 on the loopback address. */
  lemma LoopbackLine()
    ensures KernelText([127, 0, 0, 1], 22) == "0100007F:0016"
  {
    hide Padded;
    var b: seq<Byte> := [127, 0, 0, 1];
    assert b[|b|-4..] == b && b[..|b|-4] == [];
    LoopbackWord();
    PortWord();
    assert KernelHex(b) == KernelHex([]) + Padded(0x0100007f, 8);
  }

  lemma LoopbackWord()
    ensures Padded(0x0100007f, 8) == "0100007F"
  {
    hide Padded;
    PaddedStep(0x0100007f, 8);
    PaddedStep(0x0100007, 7);
    PaddedStep(0x010000, 6);
    PaddedStep(0x01000, 5);
    PaddedStep(0x0100, 4);
    PaddedStep(0x010, 3);
    PaddedStep(0x01, 2);
    PaddedStep(0x0, 1);
    PaddedNothing(0);
  }

  lemma PortWord()
    ensures Padded(22, 4) == "0016"
  {
    hide Padded;
    PaddedStep(22, 4);
    PaddedStep(1, 3);
    PaddedStep(0, 2);
    PaddedStep(0, 1);
    PaddedNothing(0);
  }

  lemma PaddedStep(n: nat, w: nat)
    requires w > 0
    ensures Padded(n, w) == Padded(n / 16, w - 1) + ["0123456789ABCDEF"[n % 16]]
  {
  }

  lemma PaddedNothing(n: nat)
    ensures Padded(n, 0) == ""
  {
  }

  // ---- the examples of section 4 of RFC 5952 ----

  lemma HexAllMore(g: seq<nat>, x: nat)
    ensures HexAll(g + [x]) == HexAll(g) + [Hex(x)] && |HexAll(g)| == |g|
  {
    hide Hex;
    HexAllSize(g);
    assert (g + [x])[..|g|] == g;
  }

  lemma {:induction false} HexAllSize(g: seq<nat>)
    ensures |HexAll(g)| == |g|
  {
    hide Hex;
    if g != [] { HexAllSize(g[..|g|-1]); }
  }

  /** The text of some fields, and one more. */
  lemma TextMore(g: seq<nat>, text: string, x: nat)
    requires g != [] && Join(HexAll(g)) == text
    ensures Join(HexAll(g + [x])) == text + ":" + Hex(x)
  {
    hide Hex;
    HexAllMore(g, x);
    assert (HexAll(g) + [Hex(x)])[..|g|] == HexAll(g);
  }

  lemma TextOfOne(x: nat)
    ensures Join(HexAll([x])) == Hex(x)
  {
    hide Hex;
    HexAllMore([], x);
    assert [] + [x] == [x];
  }

  lemma FieldTexts()
    ensures Hex(0) == "0" && Hex(1) == "1" && Hex(0xdb8) == "db8" && Hex(0x2001) == "2001"
  {
    assert Hex(0xdb8) == Hex(0xdb) + "8" && Hex(0xdb) == Hex(0xd) + "b";
    assert Hex(0x2001) == Hex(0x200) + "1" && Hex(0x200) == Hex(0x20) + "0" && Hex(0x20) == Hex(2) + "0";
  }

  /** A run of zeros contains no other field. */
  lemma RunAvoids(g: seq<nat>, s: int, l: int, k: nat)
    requires k < |g| && g[k] != 0
    ensures ZeroRun(g, s, l) ==> 0 <= s && 0 <= l && s + l <= |g| && !(s <= k < s + l)
  {
  }

  /** One zero field alone is not shortened (section 4.2.2). */
  lemma SingleZeroIsKept()
    ensures IsCanonical([0x2001, 0xdb8, 0, 1, 1, 1, 1, 1], "2001:db8:0:1:1:1:1:1")
  {
    hide Join, HexAll, Hex, ZeroRun;
    var g: Groups := [0x2001, 0xdb8, 0, 1, 1, 1, 1, 1];
    forall s ensures !ZeroRun(g, s, 2) { NoTwoZeros(g, s); }
    FieldTexts();
    TextOfOne(0x2001);
    TextMore([0x2001], "2001", 0xdb8);
    assert [0x2001] + [0xdb8] == [0x2001, 0xdb8];
    TextMore([0x2001, 0xdb8], "2001:db8", 0);
    assert [0x2001, 0xdb8] + [0] == [0x2001, 0xdb8, 0];
    TextMore([0x2001, 0xdb8, 0], "2001:db8:0", 1);
    assert [0x2001, 0xdb8, 0] + [1] == [0x2001, 0xdb8, 0, 1];
    TextMore([0x2001, 0xdb8, 0, 1], "2001:db8:0:1", 1);
    assert [0x2001, 0xdb8, 0, 1] + [1] == [0x2001, 0xdb8, 0, 1, 1];
    TextMore([0x2001, 0xdb8, 0, 1, 1], "2001:db8:0:1:1", 1);
    assert [0x2001, 0xdb8, 0, 1, 1] + [1] == [0x2001, 0xdb8, 0, 1, 1, 1];
    TextMore([0x2001, 0xdb8, 0, 1, 1, 1], "2001:db8:0:1:1:1", 1);
    assert [0x2001, 0xdb8, 0, 1, 1, 1] + [1] == [0x2001, 0xdb8, 0, 1, 1, 1, 1];
    TextMore([0x2001, 0xdb8, 0, 1, 1, 1, 1], "2001:db8:0:1:1:1:1", 1);
    assert [0x2001, 0xdb8, 0, 1, 1, 1, 1] + [1] == [0x2001, 0xdb8, 0, 1, 1, 1, 1, 1];
    assert [0x2001, 0xdb8, 0, 1, 1, 1, 1] + [1] == g;
    assert BestRun(g, -1, 0) && Text(g, -1, 0) == "2001:db8:0:1:1:1:1:1";
  }

  lemma NoTwoZeros(g: Groups, s: int)
    requires g == [0x2001, 0xdb8, 0, 1, 1, 1, 1, 1]
    ensures !ZeroRun(g, s, 2)
  {
    hide ZeroRun;
    RunAvoids(g, s, 2, 0);
    RunAvoids(g, s, 2, 1);
    RunAvoids(g, s, 2, 3);
    RunAvoids(g, s, 2, 5);
    RunAvoids(g, s, 2, 7);
  }

  /** Of two runs as long the first is shortened (section 4.2.3). */
  lemma FirstRunIsShortened()
    ensures IsCanonical([0x2001, 0xdb8, 0, 0, 1, 0, 0, 1], "2001:db8::1:0:0:1")
  {
    hide Join, HexAll, Hex;
    var g: Groups := [0x2001, 0xdb8, 0, 0, 1, 0, 0, 1];
    forall s, l | ZeroRun(g, s, l) ensures l <= 2 && (l == 2 ==> s >= 2) {
      RunAvoids(g, s, l, 0);
      RunAvoids(g, s, l, 1);
      RunAvoids(g, s, l, 4);
      RunAvoids(g, s, l, 7);
    }
    assert BestRun(g, 2, 2);
    FieldTexts();
    TextOfOne(0x2001);
    TextMore([0x2001], "2001", 0xdb8);
    assert [0x2001] + [0xdb8] == [0x2001, 0xdb8];
    TextOfOne(1);
    TextMore([1], "1", 0);
    assert [1] + [0] == [1, 0];
    TextMore([1, 0], "1:0", 0);
    assert [1, 0] + [0] == [1, 0, 0];
    TextMore([1, 0, 0], "1:0:0", 1);
    assert [1, 0, 0] + [1] == [1, 0, 0, 1];
    assert g[..2] == [0x2001] + [0xdb8] && g[4..] == [1, 0, 0] + [1];
    assert Text(g, 2, 2) == "2001:db8::1:0:0:1";
  }

  /** The longest run is shortened (section 4.2.3). */
  lemma LongestRunIsShortened()
    ensures IsCanonical([0x2001, 0, 0, 1, 0, 0, 0, 1], "2001:0:0:1::1")
  {
    hide Join, HexAll, Hex;
    var g: Groups := [0x2001, 0, 0, 1, 0, 0, 0, 1];
    forall s, l | ZeroRun(g, s, l) ensures l <= 3 && (l == 3 ==> s >= 4) {
      RunAvoids(g, s, l, 0);
      RunAvoids(g, s, l, 3);
      RunAvoids(g, s, l, 7);
    }
    assert BestRun(g, 4, 3);
    FieldTexts();
    TextOfOne(0x2001);
    TextMore([0x2001], "2001", 0);
    assert [0x2001] + [0] == [0x2001, 0];
    TextMore([0x2001, 0], "2001:0", 0);
    assert [0x2001, 0] + [0] == [0x2001, 0, 0];
    TextMore([0x2001, 0, 0], "2001:0:0", 1);
    assert [0x2001, 0, 0] + [1] == [0x2001, 0, 0, 1];
    TextOfOne(1);
    assert g[..4] == [0x2001, 0, 0] + [1] && g[7..] == [1];
    assert Text(g, 4, 3) == "2001:0:0:1::1";
  }
}
