/** The text operations the sources use: UTF-8 decoding, splitting, trimming. */
module Text {
  import opened Types

  type Byte = b: int | 0 <= b < 256

  const NEWLINE: Byte := 10

  // ---- UTF-8 (well-formed byte sequences, table 3-7 of the Unicode Standard) ---------------

  predicate Continues(b: Byte) {
    0x80 <= b <= 0xBF
  }

  /** The six payload bits of a continuation byte. */
  function Low(b: Byte): int {
    b as int - 0x80
  }

  /** First code point of `s` and the number of bytes it takes. */
  function DecodeOne(s: seq<Byte>): (r: Option<(char, nat)>)
    requires s != []
    ensures r.Some? ==> 1 <= r.value.1 <= |s|
    ensures r.Some? ==> forall i :: 1 <= i < r.value.1 ==> Continues(s[i])
    ensures r.Some? ==> (r.value.0 == '\n' <==> r.value.1 == 1 && s[0] == NEWLINE)
  {
    var a: int := s[0];
    if a < 0x80 then Some((a as char, 1))
    else if 0xC2 <= a <= 0xDF && |s| >= 2 && Continues(s[1]) then
      Some((((a - 0xC0) * 0x40 + Low(s[1])) as char, 2))
    else if 0xE0 <= a <= 0xEF && |s| >= 3 && Continues(s[1]) && Continues(s[2])
            && (a == 0xE0 ==> 0xA0 <= s[1]) && (a == 0xED ==> s[1] <= 0x9F) then
      Some((((a - 0xE0) * 0x1000 + Low(s[1]) * 0x40 + Low(s[2])) as char, 3))
    else if 0xF0 <= a <= 0xF4 && |s| >= 4 && Continues(s[1]) && Continues(s[2]) && Continues(s[3])
            && (a == 0xF0 ==> 0x90 <= s[1]) && (a == 0xF4 ==> s[1] <= 0x8F) then
      Some((((a - 0xF0) * 0x40000 + Low(s[1]) * 0x1000 + Low(s[2]) * 0x40 + Low(s[3])) as char, 4))
    else None
  }

  function Decode(s: seq<Byte>): Option<string>
    decreases |s|
  {
    if s == [] then Some("")
    else
      match DecodeOne(s)
      case None => None
      case Some((c, n)) =>
        match Decode(s[n..])
        case None => None
        case Some(rest) => Some([c] + rest)
  }

  /** UTF-8 as section 3 of RFC 3629 defines it. */
  function EncodeOne(c: char): (s: seq<Byte>)
    ensures 1 <= |s| <= 4
  {
    var n := c as int;
    if n < 0x80 then [n]
    else if n < 0x800 then [0xC0 + n / 0x40, 0x80 + n % 0x40]
    else if n < 0x10000 then [0xE0 + n / 0x1000, 0x80 + n / 0x40 % 0x40, 0x80 + n % 0x40]
    else [0xF0 + n / 0x40000, 0x80 + n / 0x1000 % 0x40, 0x80 + n / 0x40 % 0x40, 0x80 + n % 0x40]
  }

  function Encode(t: string): seq<Byte> {
    if t == "" then [] else EncodeOne(t[0]) + Encode(t[1..])
  }

  /** Six bits at a time. */
  lemma Sextets(high: nat, mid: nat, low: nat)
    requires mid < 0x40 && low < 0x40
    ensures var n := high * 0x1000 + mid * 0x40 + low;
            n / 0x1000 == high && n / 0x40 % 0x40 == mid && n % 0x40 == low && n / 0x40 == high * 0x40 + mid
  {
  }

  lemma FourSextets(top: nat, high: nat, mid: nat, low: nat)
    requires high < 0x40 && mid < 0x40 && low < 0x40
    ensures var n := top * 0x40000 + high * 0x1000 + mid * 0x40 + low;
            n / 0x40000 == top && n / 0x1000 % 0x40 == high && n / 0x40 % 0x40 == mid && n % 0x40 == low
  {
    var n := top * 0x40000 + high * 0x1000 + mid * 0x40 + low;
    Sextets(top * 0x40 + high, mid, low);
    assert n == (top * 0x40 + high) * 0x1000 + mid * 0x40 + low;
  }

  lemma Recombined(n: nat)
    ensures n == n / 0x40 * 0x40 + n % 0x40
    ensures n == n / 0x1000 * 0x1000 + n / 0x40 % 0x40 * 0x40 + n % 0x40
    ensures n == n / 0x40000 * 0x40000 + n / 0x1000 % 0x40 * 0x1000 + n / 0x40 % 0x40 * 0x40 + n % 0x40
  {
    assert n / 0x1000 == n / 0x40 / 0x40;
    assert n / 0x40000 == n / 0x1000 / 0x40;
  }

  lemma TwoBytes(c: char, s: seq<Byte>)
    requires 0x80 <= c as int < 0x800 && |s| >= 2 && s[..2] == EncodeOne(c)
    ensures DecodeOne(s) == Some((c, 2))
  {
    assert s[0] == s[..2][0] && s[1] == s[..2][1];
    Recombined(c as int);
  }

  lemma ThreeBytes(c: char, s: seq<Byte>)
    requires 0x800 <= c as int < 0x10000 && |s| >= 3 && s[..3] == EncodeOne(c)
    ensures DecodeOne(s) == Some((c, 3))
  {
    assert s[0] == s[..3][0] && s[1] == s[..3][1] && s[2] == s[..3][2];
    Recombined(c as int);
  }

  lemma FourBytes(c: char, s: seq<Byte>)
    requires 0x10000 <= c as int && |s| >= 4 && s[..4] == EncodeOne(c)
    ensures DecodeOne(s) == Some((c, 4))
  {
    assert s[0] == s[..4][0] && s[1] == s[..4][1] && s[2] == s[..4][2] && s[3] == s[..4][3];
    Recombined(c as int);
  }

  lemma DecodeEncodedOne(c: char, rest: seq<Byte>)
    ensures DecodeOne(EncodeOne(c) + rest) == Some((c, |EncodeOne(c)|))
  {
    var s := EncodeOne(c) + rest;
    assert s[..|EncodeOne(c)|] == EncodeOne(c);
    if 0x80 <= c as int < 0x800 {
      TwoBytes(c, s);
    } else if 0x800 <= c as int < 0x10000 {
      ThreeBytes(c, s);
    } else if 0x10000 <= c as int {
      FourBytes(c, s);
    }
  }

  /** What decodes is the one encoding of its code point: overlong forms, surrogates and values
      beyond the last code point are refused. */
  lemma DecodedOneIsEncoded(s: seq<Byte>)
    requires s != [] && DecodeOne(s).Some?
    ensures s[..DecodeOne(s).value.1] == EncodeOne(DecodeOne(s).value.0)
  {
    match DecodeOne(s).value.1 {
      case 1 => assert s[..1] == [s[0]];
      case 2 => TwoBytesAreEncoded(s);
      case 3 => ThreeBytesAreEncoded(s);
      case 4 => FourBytesAreEncoded(s);
      case _ =>
    }
  }

  lemma TwoBytesAreEncoded(s: seq<Byte>)
    requires s != [] && DecodeOne(s).Some? && DecodeOne(s).value.1 == 2
    ensures s[..2] == EncodeOne(DecodeOne(s).value.0)
  {
    Sextets(0, s[0] - 0xC0, Low(s[1]));
    assert s[..2] == [s[0], s[1]];
  }

  lemma ThreeBytesAreEncoded(s: seq<Byte>)
    requires s != [] && DecodeOne(s).Some? && DecodeOne(s).value.1 == 3
    ensures s[..3] == EncodeOne(DecodeOne(s).value.0)
  {
    Sextets(s[0] - 0xE0, Low(s[1]), Low(s[2]));
    assert s[..3] == [s[0], s[1], s[2]];
  }

  lemma FourBytesAreEncoded(s: seq<Byte>)
    requires s != [] && DecodeOne(s).Some? && DecodeOne(s).value.1 == 4
    ensures s[..4] == EncodeOne(DecodeOne(s).value.0)
  {
    FourSextets(s[0] - 0xF0, Low(s[1]), Low(s[2]), Low(s[3]));
    assert s[..4] == [s[0], s[1], s[2], s[3]];
  }

  lemma {:induction false} DecodeEncoded(t: string)
    ensures Decode(Encode(t)) == Some(t)
  {
    if t != "" {
      var one, rest := EncodeOne(t[0]), Encode(t[1..]);
      DecodeEncoded(t[1..]);
      DecodeEncodedOne(t[0], rest);
      DecodeStep(one + rest, t[0], rest) by {
        assert (one + rest)[|one|..] == rest;
      }
      assert [t[0]] + t[1..] == t;
    }
  }

  /** Bytes decode to a text exactly when they are its encoding. */
  lemma {:induction false} DecodesIff(s: seq<Byte>, t: string)
    ensures Decode(s) == Some(t) <==> s == Encode(t)
    decreases |s|
  {
    DecodeEncoded(t);
    if s != [] && Decode(s) == Some(t) {
      var c, n := DecodedFront(s);
      DecodesIff(s[n..], t[1..]);
      DecodedOneIsEncoded(s);
      assert s == s[..n] + s[n..];
    }
  }

  predicate EndsLine(s: seq<Byte>) {
    s != [] && s[|s| - 1] == NEWLINE
  }

  /** A code point does not depend on the bytes after it. */
  lemma DecodeOneLocal(a: seq<Byte>, b: seq<Byte>)
    requires a != []
    ensures DecodeOne(a).Some? ==> DecodeOne(a + b) == DecodeOne(a)
    ensures DecodeOne(a + b).Some? && DecodeOne(a + b).value.1 <= |a| ==> DecodeOne(a) == DecodeOne(a + b)
  {
  }

  /** Decoding goes one code point at a time. */
  lemma DecodeStep(s: seq<Byte>, c: char, rest: seq<Byte>)
    requires s != [] && DecodeOne(s).Some? && DecodeOne(s).value.0 == c && s[DecodeOne(s).value.1..] == rest
    ensures Decode(s) == match Decode(rest) case None => None case Some(t) => Some([c] + t)
  {
  }

  lemma DecodedFront(a: seq<Byte>) returns (c: char, n: nat)
    requires a != [] && Decode(a).Some?
    ensures 1 <= n <= |a| && DecodeOne(a) == Some((c, n))
    ensures Decode(a[n..]).Some? && Decode(a).value == [c] + Decode(a[n..]).value
  {
    c, n := DecodeOne(a).value.0, DecodeOne(a).value.1;
  }

  /** After a valid prefix, decoding goes on as if from the start. */
  lemma {:induction false} DecodeConcat(a: seq<Byte>, b: seq<Byte>)
    requires Decode(a).Some?
    ensures Decode(a + b) == match Decode(b) case None => None case Some(t) => Some(Decode(a).value + t)
    decreases |a|
  {
    if a == [] {
      assert a + b == b;
      if Decode(b).Some? {
        assert "" + Decode(b).value == Decode(b).value;
      }
    } else {
      var c, n := DecodedFront(a);
      DecodeOneLocal(a, b);
      DecodeStep(a + b, c, a[n..] + b) by {
        assert (a + b)[n..] == a[n..] + b;
      }
      DecodeConcat(a[n..], b);
      if Decode(b).Some? {
        var rest, t := Decode(a[n..]).value, Decode(b).value;
        assert [c] + (rest + t) == ([c] + rest) + t;
      }
    }
  }

  /** No code point straddles a newline byte. */
  lemma {:induction false} DecodePrefixAtNewline(a: seq<Byte>, b: seq<Byte>)
    requires EndsLine(a) && Decode(a + b).Some?
    ensures Decode(a).Some?
    decreases |a|
  {
    var n := DecodeOne(a + b).value.1;
    if n > |a| - 1 {
      assert |a| == 1 || Continues((a + b)[|a| - 1]);
      assert a[1..] == [];
    } else {
      DecodeOneLocal(a, b);
      assert (a + b)[n..] == a[n..] + b;
      DecodePrefixAtNewline(a[n..], b);
    }
  }

  lemma {:induction false} DecodedLineEnds(a: seq<Byte>)
    requires EndsLine(a) && Decode(a).Some?
    ensures Decode(a).value != "" && Decode(a).value[|Decode(a).value| - 1] == '\n'
    decreases |a|
  {
    var n := DecodeOne(a).value.1;
    if n == |a| {
      assert a[n..] == [];
    } else {
      DecodedLineEnds(a[n..]);
    }
  }

  // ---- Lines ------------------------------------------------------------------------------

  function Prepend(c: char, lines: seq<string>): seq<string> {
    if c == '\n' || lines == [] then [[c]] + lines else [[c] + lines[0]] + lines[1..]
  }

  /** `split_inclusive('\n')`. */
  function Lines(s: string): seq<string> {
    if s == "" then [] else Prepend(s[0], Lines(s[1..]))
  }

  lemma PrependConcat(c: char, first: seq<string>, second: seq<string>)
    requires c == '\n' || first != []
    ensures Prepend(c, first + second) == Prepend(c, first) + second
  {
    if c == '\n' {
      assert [[c]] + (first + second) == ([[c]] + first) + second;
    } else {
      assert (first + second)[0] == first[0] && (first + second)[1..] == first[1..] + second;
      var head := [[c] + first[0]];
      assert head + (first[1..] + second) == (head + first[1..]) + second;
    }
  }

  lemma {:induction false} LinesConcat(a: string, b: string)
    requires a == "" || a[|a| - 1] == '\n'
    ensures Lines(a + b) == Lines(a) + Lines(b)
  {
    if a == "" {
      assert a + b == b;
    } else {
      assert (a + b)[1..] == a[1..] + b;
      LinesConcat(a[1..], b);
      PrependConcat(a[0], Lines(a[1..]), Lines(b));
    }
  }

  function Joined(lines: seq<string>): string {
    if lines == [] then "" else lines[0] + Joined(lines[1..])
  }

  /** A newline ends a line and nothing else does; only the last line may lack it. */
  predicate IsLine(line: string, last: bool) {
    && line != ""
    && (forall i :: 0 <= i < |line| - 1 ==> line[i] != '\n')
    && (line[|line| - 1] == '\n' || last)
  }

  /** The lines are the text, cut after every newline. */
  lemma {:induction false} LinesPartition(s: string)
    ensures Joined(Lines(s)) == s
    ensures forall i :: 0 <= i < |Lines(s)| ==> IsLine(Lines(s)[i], i == |Lines(s)| - 1)
  {
    if s != "" {
      var lines, rest := Lines(s), Lines(s[1..]);
      LinesPartition(s[1..]);
      assert s == [s[0]] + s[1..];
      if s[0] == '\n' || rest == [] {
        assert lines[1..] == rest;
      } else {
        assert lines[1..] == rest[1..];
        assert IsLine(rest[0], |rest| == 1);
      }
      forall i | 0 <= i < |lines|
        ensures IsLine(lines[i], i == |lines| - 1)
      {
        if |lines| > |rest| {
          assert i == 0 || IsLine(rest[i - 1], i == |lines| - 1);
        } else {
          assert IsLine(rest[i], i == |lines| - 1);
        }
      }
    }
  }

  // ---- Splitting and trimming -------------------------------------------------------------

  predicate StartsWith(s: string, p: string) {
    p <= s
  }

  function StripPrefix(s: string, p: string): Option<string> {
    if StartsWith(s, p) then Some(s[|p|..]) else None
  }

  /** Splits around the first occurrence of `p`. */
  function SplitOnce(s: string, p: string): Option<(string, string)>
    requires p != ""
  {
    if StartsWith(s, p) then Some(("", s[|p|..]))
    else if s == "" then None
    else
      match SplitOnce(s[1..], p)
      case None => None
      case Some((a, b)) => Some(([s[0]] + a, b))
  }

  function Split(s: string, sep: char): (r: seq<string>)
    ensures r != []
  {
    if s == "" then [""]
    else
      var rest := Split(s[1..], sep);
      if s[0] == sep then [""] + rest else [[s[0]] + rest[0]] + rest[1..]
  }

  /** The Unicode property White_Space. */
  predicate IsWhitespace(c: char) {
    var n := c as int;
    || 0x09 <= n <= 0x0D || n == 0x20 || n == 0x85 || n == 0xA0 || n == 0x1680
    || 0x2000 <= n <= 0x200A || n == 0x2028 || n == 0x2029 || n == 0x202F || n == 0x205F || n == 0x3000
  }

  function TrimStart(s: string): string {
    if s != "" && IsWhitespace(s[0]) then TrimStart(s[1..]) else s
  }

  function TrimEnd(s: string): string {
    if s != "" && IsWhitespace(s[|s| - 1]) then TrimEnd(s[..|s| - 1]) else s
  }

  function Trim(s: string): string {
    TrimEnd(TrimStart(s))
  }

  function TrimEndNewlines(s: string): string {
    if s != "" && s[|s| - 1] == '\n' then TrimEndNewlines(s[..|s| - 1]) else s
  }

  /** The first occurrence of `p` is where the text is split, if there is one at all. */
  lemma {:induction false} SplitOnceIff(s: string, p: string)
    requires p != ""
    ensures SplitOnce(s, p).Some? ==>
              && s == SplitOnce(s, p).value.0 + p + SplitOnce(s, p).value.1
              && forall i :: 0 <= i < |SplitOnce(s, p).value.0| ==> !(p <= s[i..])
    ensures SplitOnce(s, p).None? ==> forall i :: 0 <= i <= |s| ==> !(p <= s[i..])
  {
    if StartsWith(s, p) {
      assert s == "" + p + s[|p|..];
    } else if s != "" {
      SplitOnceIff(s[1..], p);
      assert s == [s[0]] + s[1..];
      assert s[0..] == s;
      forall i | 1 <= i <= |s|
        ensures s[i..] == s[1..][i - 1..]
      {
      }
      if SplitOnce(s[1..], p).Some? {
        var a, b := SplitOnce(s[1..], p).value.0, SplitOnce(s[1..], p).value.1;
        assert s == ([s[0]] + a) + p + b;
      }
    }
  }

  function JoinedBy(pieces: seq<string>, sep: char): string
    requires pieces != []
  {
    if |pieces| == 1 then pieces[0] else pieces[0] + [sep] + JoinedBy(pieces[1..], sep)
  }

  /** The pieces are the text cut at every separator. */
  lemma {:induction false} SplitPartition(s: string, sep: char)
    ensures JoinedBy(Split(s, sep), sep) == s
    ensures forall i :: 0 <= i < |Split(s, sep)| ==> sep !in Split(s, sep)[i]
  {
    if s != "" {
      var rest := Split(s[1..], sep);
      SplitPartition(s[1..], sep);
      assert s == [s[0]] + s[1..];
      if s[0] == sep {
        assert ([""] + rest)[1..] == rest;
      } else {
        assert ([[s[0]] + rest[0]] + rest[1..])[1..] == rest[1..];
      }
    }
  }

  predicate Blank(s: string) {
    forall i :: 0 <= i < |s| ==> s[i] in {' ', '\t', '\r'}
  }

  lemma {:induction false} TrimStartBlank(a: string, s: string)
    requires Blank(a)
    ensures TrimStart(a + s) == TrimStart(s)
  {
    if a == "" {
      assert a + s == s;
    } else {
      assert (a + s)[1..] == a[1..] + s;
      TrimStartBlank(a[1..], s);
    }
  }

  lemma {:induction false} TrimEndBlank(s: string, b: string)
    requires Blank(b)
    ensures TrimEnd(s + b) == TrimEnd(s)
  {
    if b == "" {
      assert s + b == s;
    } else {
      assert (s + b)[..|s + b| - 1] == s + b[..|b| - 1];
      TrimEndBlank(s, b[..|b| - 1]);
    }
  }

  /** Blanks around a trimmed text do not matter. */
  lemma TrimPadded(a: string, s: string, b: string)
    requires Blank(a) && Blank(b) && Trim(s) == s
    ensures Trim(a + s + b) == s
  {
    assert a + s + b == a + (s + b);
    TrimStartBlank(a, s + b);
    TrimmedEnds(s);
    if s == "" {
      TrimStartBlank(b, "");
      assert b + "" == b && s + b == b;
    } else {
      TrimEndBlank(s, b);
    }
  }

  /** A text that trimming leaves alone begins and ends with something else than white space. */
  lemma TrimmedEnds(s: string)
    requires Trim(s) == s
    ensures TrimStart(s) == s && TrimEnd(s) == s
    ensures s != "" ==> !IsWhitespace(s[0])
  {
    TrimShortens(s);
    TrimEndShortens(TrimStart(s));
  }

  lemma {:induction false} TrimShortens(s: string)
    ensures |TrimStart(s)| <= |s| && (|TrimStart(s)| == |s| ==> TrimStart(s) == s)
    ensures s != "" && IsWhitespace(s[0]) ==> |TrimStart(s)| < |s|
  {
    if s != "" && IsWhitespace(s[0]) {
      TrimShortens(s[1..]);
    }
  }

  lemma {:induction false} TrimEndShortens(s: string)
    ensures |TrimEnd(s)| <= |s| && (|TrimEnd(s)| == |s| ==> TrimEnd(s) == s)
  {
    if s != "" && IsWhitespace(s[|s| - 1]) {
      TrimEndShortens(s[..|s| - 1]);
    }
  }

  predicate AllDigits(s: string) {
    forall i :: 0 <= i < |s| ==> '0' <= s[i] <= '9'
  }

  lemma {:induction false} SplitOnceFirst(a: string, p: string, b: string)
    requires p != "" && p[0] !in a
    ensures SplitOnce(a + p + b, p) == Some((a, b))
  {
    if a == "" {
      assert a + p + b == p + b;
      assert (p + b)[|p|..] == b;
    } else {
      assert (a + p + b)[1..] == a[1..] + p + b;
      assert (a + p + b)[0] == a[0] != p[0];
      SplitOnceFirst(a[1..], p, b);
      assert [a[0]] + a[1..] == a;
    }
  }

  lemma {:induction false} SplitAtSeparator(a: string, sep: char, b: string)
    requires sep !in a
    ensures Split(a + [sep] + b, sep) == [a] + Split(b, sep)
  {
    if a == "" {
      assert a + [sep] + b == [sep] + b;
    } else {
      assert (a + [sep] + b)[1..] == a[1..] + [sep] + b;
      SplitAtSeparator(a[1..], sep, b);
      assert [a[0]] + a[1..] == a;
      assert ([a[1..]] + Split(b, sep))[1..] == Split(b, sep);
    }
  }
}
