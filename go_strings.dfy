/**
 * The parts of Go's `strings` and `strconv` packages that the telemetry
 * server relies on, over `seq<char>`.
 */
module GoStrings {
  import opened Wrappers

  predicate HasPrefix(s: string, p: string) { |p| <= |s| && s[..|p|] == p }

  predicate HasSuffix(s: string, p: string) { |p| <= |s| && s[|s| - |p|..] == p }

  function TrimPrefix(s: string, p: string): (r: string)
    ensures HasPrefix(s, p) ==> p + r == s
    ensures !HasPrefix(s, p) ==> r == s
  {
    if HasPrefix(s, p) then s[|p|..] else s
  }

  function TrimSuffix(s: string, p: string): (r: string)
    ensures HasSuffix(s, p) ==> r + p == s
    ensures !HasSuffix(s, p) ==> r == s
  {
    if HasSuffix(s, p) then s[..|s| - |p|] else s
  }

  /** strings.Contains: `sub` occurs somewhere in `s`. */
  predicate Contains(s: string, sub: string)
    decreases |s|
  {
    HasPrefix(s, sub) || (|s| > 0 && Contains(s[1..], sub))
  }

  lemma {:induction false} ContainsChar(s: string, c: char)
    ensures Contains(s, [c]) <==> c in s
  {
    if |s| > 0 {
      ContainsChar(s[1..], c);
      assert s == [s[0]] + s[1..];
    }
  }

  /** Index of the first occurrence of `sep` in `s` (strings.Index). */
  function IndexOf(s: string, sep: string): (r: Option<nat>)
    requires |sep| > 0
    ensures r.Some? ==> r.value + |sep| <= |s| && s[r.value..r.value + |sep|] == sep
    ensures r.Some? ==> forall j :: 0 <= j < r.value ==> !HasPrefix(s[j..], sep)
    ensures r.None? ==> !Contains(s, sep)
    decreases |s|
  {
    if HasPrefix(s, sep) then Some(0)
    else if s == [] then None
    else match IndexOf(s[1..], sep)
      case None => None
      case Some(i) =>
        assert forall j :: 1 <= j <= i ==> s[j..] == s[1..][j - 1..];
        Some(i + 1)
  }

  /** strings.Split for a non-empty separator. */
  function Split(s: string, sep: string): (parts: seq<string>)
    requires |sep| > 0
    ensures |parts| >= 1
    decreases |s|
  {
    match IndexOf(s, sep)
    case None => [s]
    case Some(i) => [s[..i]] + Split(s[i + |sep|..], sep)
  }

  /** strings.Join. */
  function Join(parts: seq<string>, sep: string): (s: string)
  {
    if |parts| == 0 then ""
    else if |parts| == 1 then parts[0]
    else parts[0] + sep + Join(parts[1..], sep)
  }

  /** Joining one more piece appends the separator and the piece. */
  lemma {:induction false} JoinSnoc(parts: seq<string>, p: string, sep: string)
    requires |parts| >= 1
    ensures Join(parts + [p], sep) == Join(parts, sep) + sep + p
    decreases |parts|
  {
    if |parts| > 1 {
      assert (parts + [p])[1..] == parts[1..] + [p];
      JoinSnoc(parts[1..], p, sep);
    }
  }

  /** Joining the pieces of a split gives back the original string. */
  lemma {:induction false} JoinSplit(s: string, sep: string)
    requires |sep| > 0
    ensures Join(Split(s, sep), sep) == s
    decreases |s|
  {
    match IndexOf(s, sep)
    case None =>
    case Some(i) =>
      var rest := s[i + |sep|..];
      var parts := Split(rest, sep);
      JoinSplit(rest, sep);
      assert Split(s, sep) == [s[..i]] + parts;
      assert Join([s[..i]] + parts, sep) == s[..i] + sep + Join(parts, sep) by {
        assert ([s[..i]] + parts)[1..] == parts;
      }
      assert s == s[..i] + sep + rest;
  }

  /** No piece of a split contains the separator. */
  lemma {:induction false} SplitPartsFree(s: string, sep: string)
    requires |sep| > 0
    ensures forall p :: p in Split(s, sep) ==> !Contains(p, sep)
    decreases |s|
  {
    match IndexOf(s, sep)
    case None =>
    case Some(i) =>
      SplitPartsFree(s[i + |sep|..], sep);
      NoEarlyPrefix(s, sep, i);
  }

  lemma {:induction false} NoEarlyPrefix(s: string, sep: string, i: nat)
    requires |sep| > 0 && i <= |s|
    requires forall j :: 0 <= j < i ==> !HasPrefix(s[j..], sep)
    requires i + |sep| <= |s| && s[i..i + |sep|] == sep
    ensures !Contains(s[..i], sep)
    decreases i
  {
    var t := s[..i];
    if i > 0 {
      assert !HasPrefix(s[0..], sep);
      assert s[0..] == s;
      forall j | 0 <= j < i - 1 ensures !HasPrefix(s[1..][j..], sep) {
        assert s[1..][j..] == s[j + 1..];
      }
      NoEarlyPrefix(s[1..], sep, i - 1);
      assert t[1..] == s[1..][..i - 1];
    } else {
      assert |sep| > 0;
    }
  }

  /** Splitting on a one-character separator undoes a join of pieces free of it. */
  lemma {:induction false} SplitJoin(parts: seq<string>, c: char)
    requires |parts| >= 1
    requires forall p :: p in parts ==> c !in p
    ensures Split(Join(parts, [c]), [c]) == parts
    decreases |parts|
  {
    var p := parts[0];
    FirstCharIndex(p, c);
    if |parts| == 1 {
      ContainsChar(p, c);
    } else {
      var rest := Join(parts[1..], [c]);
      var s := p + [c] + rest;
      FirstCharIndexAppend(p, c, rest);
      assert s[..|p|] == p;
      assert s[|p| + 1..] == rest;
      SplitJoin(parts[1..], c);
    }
  }

  lemma {:induction false} FirstCharIndex(p: string, c: char)
    requires c !in p
    ensures IndexOf(p, [c]).None?
  {
    ContainsChar(p, c);
  }

  lemma {:induction false} FirstCharIndexAppend(p: string, c: char, rest: string)
    requires c !in p
    ensures IndexOf(p + [c] + rest, [c]) == Some(|p|)
    decreases |p|
  {
    var s := p + [c] + rest;
    if |p| == 0 {
      assert s[..1] == [c];
    } else {
      assert !HasPrefix(s, [c]) by { assert s[0] == p[0]; }
      assert s[1..] == p[1..] + [c] + rest;
      FirstCharIndexAppend(p[1..], c, rest);
    }
  }

  /** The text of `s` before its first `c`, or all of `s` when it has none. */
  function BeforeChar(s: string, c: char): (r: string)
    ensures c !in r
    ensures |r| <= |s| && r == s[..|r|]
    ensures |r| < |s| ==> s[|r|] == c
  {
    if s == [] || s[0] == c then [] else [s[0]] + BeforeChar(s[1..], c)
  }

  /** `BeforeChar` is the first piece of strings.Split on a one-character separator. */
  lemma {:induction false} SplitFirstPiece(s: string, c: char)
    ensures Split(s, [c])[0] == BeforeChar(s, c)
  {
    var p := BeforeChar(s, c);
    if |p| == |s| {
      assert p == s;
      FirstCharIndex(s, c);
    } else {
      var rest := s[|p| + 1..];
      assert s == p + [c] + rest;
      FirstCharIndexAppend(p, c, rest);
    }
  }

  /** The text of `s` after its first `c`, when it has one. */
  function AfterChar(s: string, c: char): (r: Option<string>)
    ensures r.None? <==> c !in s
  {
    var p := BeforeChar(s, c);
    if |p| < |s| then Some(s[|p| + 1..]) else None
  }

  /**
   * The first two pieces of strings.Split on a one-character separator:
   * there is a second piece exactly when `c` occurs, and it is the text
   * between the first and the second `c`.
   */
  lemma {:induction false} SplitTwoPieces(s: string, c: char)
    ensures Split(s, [c])[0] == BeforeChar(s, c)
    ensures |Split(s, [c])| >= 2 <==> c in s
    ensures c in s ==> Split(s, [c])[1] == BeforeChar(AfterChar(s, c).value, c)
  {
    SplitFirstPiece(s, c);
    var p := BeforeChar(s, c);
    if |p| == |s| {
      assert p == s;
      FirstCharIndex(s, c);
    } else {
      var rest := s[|p| + 1..];
      assert s == p + [c] + rest;
      FirstCharIndexAppend(p, c, rest);
      assert Split(s, [c]) == [p] + Split(rest, [c]);
      SplitFirstPiece(rest, c);
    }
  }

  /** The part of `s` after the first `sep`, as `strings.SplitN(s, sep, 2)[1]`. */
  function AfterFirst(s: string, sep: string): (r: Option<string>)
    requires |sep| > 0
    ensures r.Some? <==> Contains(s, sep)
    ensures r.Some? ==> HasSuffix(s, sep + r.value)
  {
    match IndexOf(s, sep)
    case None => None
    case Some(i) =>
      ContainsAt(s, sep, i);
      assert s[i..] == sep + s[i + |sep|..];
      Some(s[i + |sep|..])
  }

  /**
   * `strings.SplitN(s, sep, 2)[1]`, None where that index is out of range.
   * An empty separator splits off the first character, so a string of
   * fewer than two characters has no second part.
   */
  function SplitNSecond(s: string, sep: string): (r: Option<string>)
    ensures sep == "" ==> (r.Some? <==> |s| >= 2)
    ensures sep != "" ==> (r.Some? <==> Contains(s, sep))
    ensures r.Some? ==> |r.value| < |s| && HasSuffix(s, sep + r.value)
  {
    if sep == "" then (if |s| >= 2 then Some(s[1..]) else None)
    else AfterFirst(s, sep)
  }

  lemma {:induction false} ContainsAt(s: string, sep: string, i: nat)
    requires i + |sep| <= |s| && s[i..i + |sep|] == sep
    ensures Contains(s, sep)
    decreases i
  {
    if i > 0 {
      assert s[1..][i - 1..i - 1 + |sep|] == sep;
      ContainsAt(s[1..], sep, i - 1);
    }
  }

  /** strings.Replace(s, [c], "", -1): every `c` removed. */
  function RemoveAll(s: string, c: char): (r: string)
    ensures c !in r
    ensures |r| <= |s|
    ensures c !in s ==> r == s
  {
    if s == [] then []
    else (if s[0] == c then [] else [s[0]]) + RemoveAll(s[1..], c)
  }

  /** The whitespace characters that strings.Fields separates on (ASCII subset). */
  predicate IsSpace(c: char) {
    c == ' ' || c == '\t' || c == '\n' || c == '\r' || c == '\U{000B}' || c == '\U{000C}'
  }

  function WordLen(s: string): (n: nat)
    ensures n <= |s|
    ensures forall i :: 0 <= i < n ==> !IsSpace(s[i])
    ensures n < |s| ==> IsSpace(s[n])
  {
    if s == [] || IsSpace(s[0]) then 0 else 1 + WordLen(s[1..])
  }

  /** strings.Fields: the maximal runs of non-space characters. */
  function Fields(s: string): (fs: seq<string>)
    decreases |s|
  {
    if s == [] then []
    else if IsSpace(s[0]) then Fields(s[1..])
    else var n := WordLen(s); [s[..n]] + Fields(s[n..])
  }

  /** Every field is non-empty and free of whitespace. */
  lemma {:induction false} FieldsAreWords(s: string)
    ensures forall f :: f in Fields(s) ==> |f| > 0 && forall i :: 0 <= i < |f| ==> !IsSpace(f[i])
    decreases |s|
  {
    if s == [] {
    } else if IsSpace(s[0]) {
      FieldsAreWords(s[1..]);
    } else {
      FieldsAreWords(s[WordLen(s)..]);
    }
  }

  predicate IsDigit(c: char) { '0' <= c <= '9' }

  function DigitChar(d: nat): (c: char)
    requires d < 10
    ensures IsDigit(c)
  {
    ['0', '1', '2', '3', '4', '5', '6', '7', '8', '9'][d]
  }

  function DigitValue(c: char): (d: nat)
    requires IsDigit(c)
    ensures d < 10
  {
    (c as int - '0' as int) as nat
  }

  /** strconv.FormatUint(n, 10). */
  function NatToString(n: nat): (s: string)
    decreases n
  {
    if n < 10 then [DigitChar(n)] else NatToString(n / 10) + [DigitChar(n % 10)]
  }

  /** Decimal value of a non-empty run of digits. */
  function ParseNat(s: string): (n: nat)
    requires |s| > 0 && forall i :: 0 <= i < |s| ==> IsDigit(s[i])
    decreases |s|
  {
    if |s| == 1 then DigitValue(s[0])
    else ParseNat(s[..|s| - 1]) * 10 + DigitValue(s[|s| - 1])
  }

  /** strconv.FormatInt(v, 10). */
  function IntToString(v: int): (s: string)
  {
    if v < 0 then "-" + NatToString(-v) else NatToString(v)
  }

  /** The decimal rendering is all digits and parses back to the number. */
  lemma {:induction false} NatToStringRoundTrip(n: nat)
    ensures |NatToString(n)| > 0
    ensures forall i :: 0 <= i < |NatToString(n)| ==> IsDigit(NatToString(n)[i])
    ensures ParseNat(NatToString(n)) == n
    decreases n
  {
    var s := NatToString(n);
    if n >= 10 {
      NatToStringRoundTrip(n / 10);
      var p := NatToString(n / 10);
      assert s[..|s| - 1] == p;
      assert DigitValue(DigitChar(n % 10)) == n % 10;
    } else {
      assert DigitValue(DigitChar(n)) == n;
    }
  }

  /** Negative numbers, and only they, are rendered with a leading minus sign. */
  lemma IntToStringSign(v: int)
    ensures |IntToString(v)| > 0
    ensures (IntToString(v)[0] == '-') <==> v < 0
  {
    NatToStringRoundTrip(if v < 0 then -v else v);
  }
}
