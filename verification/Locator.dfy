/**
 The shard locators of the backfill dry run: `sanitizeLocator` percent-encodes what would
 break the `<shard>:<line>` token, and `locatorNames` adds a digest where several shard
 names could be read as one. Distinct shards never print one token.
 */
module Locator {
  import opened Basics
  import opened Orders

  // ----------------------------------------------------------- percent-encoding

  predicate Breaks(c: char) { c == '%' || c == ':' || IsSpace(c) }

  function HexDigit(n: nat): (c: char)
    requires n < 16
    ensures !Breaks(c)
  {
    if n < 10 then '0' + n as char else 'A' + (n - 10) as char
  }

  function HexValue(c: char): nat {
    if '0' <= c <= '9' then (c - '0') as nat
    else if 'A' <= c <= 'F' then (c - 'A') as nat + 10
    else 0
  }

  /** `%XX` for one byte. */
  function Percent(b: nat): (s: string)
    requires b < 256
    ensures |s| == 3 && s[0] == '%'
    ensures HexValue(s[1]) * 16 + HexValue(s[2]) == b
    ensures !Breaks(s[1]) && !Breaks(s[2])
  {
    ['%', HexDigit(b / 16), HexDigit(b % 16)]
  }

  /** UTF-8 of the code points below U+10000, where every breaking rune lies. */
  function Utf8(n: nat): (bs: seq<nat>)
    requires n < 0x10000
    ensures 1 <= |bs| <= 3 && forall i :: 0 <= i < |bs| ==> bs[i] < 256
  {
    if n < 0x80 then [n]
    else if n < 0x800 then [0xC0 + n / 64, 0x80 + n % 64]
    else [0xE0 + n / 4096, 0x80 + n / 64 % 64, 0x80 + n % 64]
  }

  lemma BreakingIsLow(c: char)
    requires Breaks(c)
    ensures c as nat < 0xD800
  {
  }

  function PercentAll(bs: seq<nat>): (s: string)
    requires forall i :: 0 <= i < |bs| ==> bs[i] < 256
    ensures |s| == 3 * |bs|
  {
    if bs == [] then "" else Percent(bs[0]) + PercentAll(bs[1..])
  }

  function EncodeRune(c: char): string {
    if Breaks(c) then (BreakingIsLow(c); PercentAll(Utf8(c as nat))) else [c]
  }

  /** The second pass of `sanitizeLocator`. */
  function Encode(s: string): string {
    if s == [] then "" else EncodeRune(s[0]) + Encode(s[1..])
  }

  // ----------------------------------------------------------------- decoding

  function ByteAt(s: string, i: nat): nat {
    if i + 2 < |s| then HexValue(s[i + 1]) * 16 + HexValue(s[i + 2]) else 0
  }

  /** How many bytes the escape at the front spans, from its lead byte. */
  function Span(b: nat): nat { if b < 0x80 then 1 else if b < 0xE0 then 2 else 3 }

  /** The code point of a lead byte and the two bytes after it, as many as the lead byte asks for. */
  function CodeOf(b: nat, c: nat, d: nat): int {
    if b < 0x80 then b
    else if b < 0xE0 then (b - 0xC0) * 64 + (c - 0x80)
    else (b - 0xE0) * 4096 + (c - 0x80) * 64 + (d - 0x80)
  }

  function CodePoint(s: string): int { CodeOf(ByteAt(s, 0), ByteAt(s, 3), ByteAt(s, 6)) }

  function Rune(n: int): char {
    if 0 <= n < 0xD800 then n as char else '?'
  }

  function Decode(s: string): string {
    if s == [] then ""
    else if s[0] != '%' then [s[0]] + Decode(s[1..])
    else
      var n := 3 * Span(ByteAt(s, 0));
      if n > |s| then "" else [Rune(CodePoint(s))] + Decode(s[n..])
  }

  lemma PercentSkip(b: nat, rest: string, i: nat)
    requires b < 256
    ensures ByteAt(Percent(b) + rest, 0) == b
    ensures ByteAt(Percent(b) + rest, 3 + i) == ByteAt(rest, i)
  {
    var s := Percent(b) + rest;
    if i + 2 < |rest| { assert s[3 + i + 1] == rest[i + 1] && s[3 + i + 2] == rest[i + 2]; }
  }

  lemma {:induction false} BytesReadBack(bs: seq<nat>, rest: string, k: nat)
    requires k < |bs| && forall i :: 0 <= i < |bs| ==> bs[i] < 256
    ensures ByteAt(PercentAll(bs) + rest, 3 * k) == bs[k]
  {
    var tail := PercentAll(bs[1..]) + rest;
    assert PercentAll(bs) + rest == Percent(bs[0]) + tail;
    PercentSkip(bs[0], tail, if k == 0 then 0 else 3 * (k - 1));
    if k > 0 { BytesReadBack(bs[1..], rest, k - 1); }
  }

  lemma CodeOfUtf8(n: nat, c: nat, d: nat)
    requires n < 0x10000
    requires |Utf8(n)| > 1 ==> c == Utf8(n)[1]
    requires |Utf8(n)| > 2 ==> d == Utf8(n)[2]
    ensures Span(Utf8(n)[0]) == |Utf8(n)| && CodeOf(Utf8(n)[0], c, d) == n
  {
    var q := n / 64;
    assert n == q * 64 + n % 64 && q == q / 64 * 64 + q % 64 && n / 4096 == q / 64;
  }

  /** An encoded breaking rune reads back, whatever follows it. */
  lemma EscapeReadsBack(c: char, rest: string)
    requires Breaks(c)
    ensures var s := EncodeRune(c) + rest;
            && s != [] && s[0] == '%' && |EncodeRune(c)| == 3 * Span(ByteAt(s, 0)) && CodePoint(s) == c as int
  {
    BreakingIsLow(c);
    var bs := Utf8(c as nat);
    var s := PercentAll(bs) + rest;
    assert s[0] == Percent(bs[0])[0];
    BytesReadBack(bs, rest, 0);
    if |bs| > 1 { BytesReadBack(bs, rest, 1); }
    if |bs| > 2 { BytesReadBack(bs, rest, 2); }
    CodeOfUtf8(c as nat, ByteAt(s, 3), ByteAt(s, 6));
  }

  /** The encoding is reversible. */
  lemma {:induction false} DecodeUndoesEncode(s: string)
    ensures Decode(Encode(s)) == s
  {
    if s != [] {
      var rest := Encode(s[1..]);
      DecodeUndoesEncode(s[1..]);
      assert s == [s[0]] + s[1..];
      var e := EncodeRune(s[0]) + rest;
      if Breaks(s[0]) {
        EscapeReadsBack(s[0], rest);
        BreakingIsLow(s[0]);
        assert e[|EncodeRune(s[0])|..] == rest;
      } else {
        assert e[1..] == rest && e[0] == s[0];
      }
    }
  }

  /** An encoded name is one token: no colon, no whitespace. */
  lemma {:induction false} EncodedIsOneToken(s: string)
    ensures forall i :: 0 <= i < |Encode(s)| ==> Encode(s)[i] != ':' && !IsSpace(Encode(s)[i])
    ensures '#' !in s ==> '#' !in Encode(s)
  {
    if s != [] {
      EncodedIsOneToken(s[1..]);
      if Breaks(s[0]) {
        BreakingIsLow(s[0]);
        PercentIsPlain(Utf8(s[0] as nat));
      }
    }
  }

  lemma {:induction false} PercentIsPlain(bs: seq<nat>)
    requires forall i :: 0 <= i < |bs| ==> bs[i] < 256
    ensures forall i :: 0 <= i < |PercentAll(bs)| ==> PercentAll(bs)[i] != ':' && !IsSpace(PercentAll(bs)[i]) && PercentAll(bs)[i] != '#'
  {
    if bs != [] { PercentIsPlain(bs[1..]); }
  }

  const HEX := "0123456789ABCDEF"

  /** An escape is a percent sign and the two upper-case digits of its byte. */
  lemma EscapesAreHex(b: nat)
    requires b < 256
    ensures Percent(b) == ['%', HEX[b / 16], HEX[b % 16]]
  {
    assert forall n :: 0 <= n < 10 ==> HEX[n] == '0' + n as char;
    assert forall n :: 10 <= n < 16 ==> HEX[n] == 'A' + (n - 10) as char;
  }

  /** What needs no escape stays as it is. */
  lemma {:induction false} PlainStays(s: string)
    requires forall i :: 0 <= i < |s| ==> s[i] != '%' && s[i] != ':' && !IsSpace(s[i])
    ensures Encode(s) == s
  {
    if s != [] { PlainStays(s[1..]); }
  }

  // -------------------------------------------------------------------- names

  /** Runes that can drive a terminal: controls, line separators and format runes. */
  predicate Drives(format: char -> bool, c: char) {
    c < ' ' || '\U{7F}' <= c <= '\U{9F}' || c == '\U{2028}' || c == '\U{2029}' || format(c)
  }

  /** `stripTerminalDrivers`. */
  function Strip(format: char -> bool, s: string): string { Filter((c: char) => !Drives(format, c), s) }

  /** The text passes around the encoding: the format runes, the compatibility fold, and the digest. */
  datatype Passes = Passes(format: char -> bool, fold: string -> string, digest: string -> string) {
    function Stripped(raw: string): string { Strip(format, raw) }
    function Token(raw: string): string { Encode(Stripped(raw)) }
    function CollisionKey(raw: string): string { fold(Stripped(raw)) }
  }

  function SharedBy(p: Passes, shards: seq<string>, key: string): set<string> {
    set s | s in shards && p.CollisionKey(s) == key
  }

  predicate Crowded(p: Passes, shards: seq<string>, raw: string) {
    |SharedBy(p, shards, p.CollisionKey(raw))| > 1
  }

  /** What `locatorNames` prints for a changed shard. */
  function Name(p: Passes, shards: seq<string>, raw: string): string {
    if Crowded(p, shards, raw) then p.Token(raw) + ['#'] + p.digest(raw) else p.Token(raw)
  }

  lemma SplitAtHash(a: string, x: string, b: string, y: string)
    requires '#' !in a && '#' !in b && a + ['#'] + x == b + ['#'] + y
    ensures a == b && x == y
  {
    var s, t := a + ['#'] + x, b + ['#'] + y;
    assert s[|a|] == '#' && t[|b|] == '#';
    assert a == s[..|a|] && b == t[..|b|];
    assert x == s[|a| + 1..] && y == t[|b| + 1..];
  }

  lemma TwoMembers(s: set<string>, a: string, b: string)
    requires a in s && b in s && a != b
    ensures |s| > 1
  {
    assert {a, b} <= s;
    assert |s - {a, b}| >= 0 && s == {a, b} + (s - {a, b});
  }

  /**
   Locators name one file: two different shards of the snapshot never print one token,
   provided no name holds a `#` and no two names that strip alike share a truncated digest.
   */
  lemma LocatorsNameOneFile(p: Passes, shards: seq<string>, a: string, b: string)
    requires a in shards && b in shards && a != b
    requires '#' !in a && '#' !in b
    requires p.Stripped(a) == p.Stripped(b) ==> p.digest(a) != p.digest(b)
    ensures Name(p, shards, a) != Name(p, shards, b)
  {
    var ta, tb := p.Token(a), p.Token(b);
    FilterIn((c: char) => !Drives(p.format, c), a, '#');
    FilterIn((c: char) => !Drives(p.format, c), b, '#');
    EncodedIsOneToken(p.Stripped(a));
    EncodedIsOneToken(p.Stripped(b));
    DecodeUndoesEncode(p.Stripped(a));
    DecodeUndoesEncode(p.Stripped(b));
    if p.Stripped(a) == p.Stripped(b) {
      TwoMembers(SharedBy(p, shards, p.CollisionKey(a)), a, b);
    }
    if Crowded(p, shards, a) { assert Name(p, shards, a)[|ta|] == '#'; }
    if Crowded(p, shards, b) { assert Name(p, shards, b)[|tb|] == '#'; }
    if Crowded(p, shards, a) && Crowded(p, shards, b) && Name(p, shards, a) == Name(p, shards, b) {
      SplitAtHash(ta, p.digest(a), tb, p.digest(b));
    }
  }

  // ------------------------------------------------------ what reaches a terminal

  /** Safe to print: no C0 or C1 control, no DEL, no line or paragraph separator, no format rune. */
  predicate Tame(format: char -> bool, c: char) {
    && (' ' <= c < '\U{7F}' || '\U{9F}' < c)
    && c != '\U{2028}' && c != '\U{2029}' && !format(c)
  }

  ghost predicate AllTame(format: char -> bool, s: string) { forall i :: 0 <= i < |s| ==> Tame(format, s[i]) }

  /** No format rune is among the characters the encoding and the digest add. */
  ghost predicate PlainDigits(format: char -> bool) {
    !format('%') && !format('#') && (forall c: char :: '0' <= c <= '9' || 'A' <= c <= 'F' ==> !format(c))
  }

  lemma {:induction false} PercentIsTame(format: char -> bool, bs: seq<nat>)
    requires PlainDigits(format) && forall i :: 0 <= i < |bs| ==> bs[i] < 256
    ensures AllTame(format, PercentAll(bs))
  {
    if bs != [] { PercentIsTame(format, bs[1..]); }
  }

  lemma {:induction false} EncodeIsTame(format: char -> bool, s: string)
    requires PlainDigits(format) && AllTame(format, s)
    ensures AllTame(format, Encode(s))
  {
    if s != [] {
      EncodeIsTame(format, s[1..]);
      if Breaks(s[0]) {
        BreakingIsLow(s[0]);
        PercentIsTame(format, Utf8(s[0] as nat));
      }
    }
  }

  lemma StripIsTame(format: char -> bool, s: string)
    ensures Strip(format, s) == Filter((c: char) => Tame(format, c), s)
    ensures AllTame(format, Strip(format, s))
  {
    FilterSame((c: char) => !Drives(format, c), (c: char) => Tame(format, c), s);
    FilterMembers((c: char) => Tame(format, c), s);
    var kept := Strip(format, s);
    forall i | 0 <= i < |kept| ensures Tame(format, kept[i]) { assert kept[i] in kept; }
  }

  /**
   A printed name drives no terminal if its digest does not, and its token reads back as
   exactly the safe runes of the raw name, in order.
   */
  lemma PrintedNameIsTame(p: Passes, shards: seq<string>, raw: string)
    requires PlainDigits(p.format) && AllTame(p.format, p.digest(raw))
    ensures AllTame(p.format, Name(p, shards, raw))
    ensures Decode(p.Token(raw)) == Filter((c: char) => Tame(p.format, c), raw)
  {
    StripIsTame(p.format, raw);
    EncodeIsTame(p.format, p.Stripped(raw));
    DecodeUndoesEncode(p.Stripped(raw));
  }

  /** Two different shards of the snapshot strip and fold to what `raw` does. */
  ghost predicate TwoReadAlike(p: Passes, shards: seq<string>, raw: string) {
    exists a, b :: a in shards && b in shards && a != b && ReadsAs(p, a, raw) && ReadsAs(p, b, raw)
  }

  predicate ReadsAs(p: Passes, a: string, raw: string) {
    var tame := (c: char) => Tame(p.format, c);
    p.fold(Filter(tame, a)) == p.fold(Filter(tame, raw))
  }

  lemma ReadsAsKey(p: Passes, a: string, raw: string)
    ensures ReadsAs(p, a, raw) <==> p.CollisionKey(a) == p.CollisionKey(raw)
  {
    StripIsTame(p.format, a);
    StripIsTame(p.format, raw);
  }

  lemma AlikeAreTwo(p: Passes, shards: seq<string>, raw: string)
    ensures Crowded(p, shards, raw) <==> TwoReadAlike(p, shards, raw)
  {
    var alike := SharedBy(p, shards, p.CollisionKey(raw));
    forall a ensures ReadsAs(p, a, raw) <==> p.CollisionKey(a) == p.CollisionKey(raw) { ReadsAsKey(p, a, raw); }
    if a, b :| a in shards && b in shards && a != b && ReadsAs(p, a, raw) && ReadsAs(p, b, raw) {
      TwoMembers(alike, a, b);
    }
    if |alike| > 1 {
      var a, b := OtherMember(alike);
      assert ReadsAs(p, a, raw) && ReadsAs(p, b, raw);
    }
  }

  /** A digest follows the token iff two shards could be read as one name. */
  lemma DigestIff(p: Passes, shards: seq<string>, raw: string)
    ensures Name(p, shards, raw) == p.Token(raw) + if TwoReadAlike(p, shards, raw) then "#" + p.digest(raw) else ""
  {
    AlikeAreTwo(p, shards, raw);
    assert p.Token(raw) + ['#'] + p.digest(raw) == p.Token(raw) + ("#" + p.digest(raw));
    assert p.Token(raw) + "" == p.Token(raw);
  }

  lemma OtherMember(s: set<string>) returns (a: string, b: string)
    requires |s| > 1
    ensures a in s && b in s && a != b
  {
    a :| a in s;
    assert |s - {a}| > 0;
    b :| b in s - {a};
  }

  // ------------------------------------------------------------- imperatively

  lemma {:induction false} EncodeSnoc(s: string, c: char)
    ensures Encode(s + [c]) == Encode(s) + EncodeRune(c)
  {
    if s == [] {
      assert [c][1..] == [] && EncodeRune(c) + "" == EncodeRune(c) && s + [c] == [c];
    } else {
      assert (s + [c])[1..] == s[1..] + [c];
      EncodeSnoc(s[1..], c);
    }
  }

  method SanitizeLocator(format: char -> bool, raw: string) returns (out: string)
    ensures out == Encode(Strip(format, raw))
  {
    var s := Strip(format, raw);
    out := "";
    for i := 0 to |s|
      invariant out == Encode(s[..i])
    {
      assert s[..i + 1] == s[..i] + [s[i]];
      EncodeSnoc(s[..i], s[i]);
      out := out + EncodeRune(s[i]);
    }
    assert s[..|s|] == s;
  }

  /** `locatorNames`: group the snapshot by collision key, then name each changed shard. */
  method LocatorNames(p: Passes, shards: seq<string>, changed: seq<string>) returns (out: map<string, string>)
    ensures forall c :: c in out <==> c in changed
    ensures forall c :: c in changed ==> out[c] == Name(p, shards, c)
  {
    var rawByToken: map<string, set<string>> := map[];
    for i := 0 to |shards|
      invariant forall k :: (if k in rawByToken then rawByToken[k] else {}) == SharedBy(p, shards[..i], k)
    {
      assert shards[..i + 1] == shards[..i] + [shards[i]];
      var t := p.CollisionKey(shards[i]);
      rawByToken := rawByToken[t := (if t in rawByToken then rawByToken[t] else {}) + {shards[i]}];
    }
    assert shards[..|shards|] == shards;
    out := map[];
    for i := 0 to |changed|
      invariant forall c :: c in out <==> c in changed[..i]
      invariant forall c :: c in out ==> out[c] == Name(p, shards, c)
    {
      var c := changed[i];
      var t := SanitizeLocator(p.format, c);
      var key := p.CollisionKey(c);
      var sharing := if key in rawByToken then rawByToken[key] else {};
      assert sharing == SharedBy(p, shards, key);
      if |sharing| > 1 {
        t := t + ['#'] + p.digest(c);
      }
      assert changed[..i + 1] == changed[..i] + [c];
      out := out[c := t];
    }
    assert changed[..|changed|] == changed;
  }
}
