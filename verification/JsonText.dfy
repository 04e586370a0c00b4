/** String values in JSON messages: writing them escaped, and reading them back. */
module JsonText {
  import opened Wrappers
  import opened JsonFrame

  const NUL: char := 0 as char
  const SPACE: int := 0x20

  predicate CString(s: string) { NUL !in s }

  function Hex(d: int): char
    requires 0 <= d < 16
  {
    "0123456789abcdef"[d]
  }

  function EscapeChar(c: char): string {
    if c == '"' || c == '\\' then ['\\', c]
    else if c as int < SPACE then "\\u00" + [Hex(c as int / 16), Hex(c as int % 16)]
    else [c]
  }

  function Escape(s: string): string {
    if s == "" then "" else EscapeChar(s[0]) + Escape(s[1..])
  }

  lemma {:induction false} EscapeSnoc(s: string, c: char)
    ensures Escape(s + [c]) == Escape(s) + EscapeChar(c)
    decreases |s|
  {
    hide EscapeChar;
    if s == "" {
      assert [c][1..] == "";
    } else {
      assert (s + [c])[1..] == s[1..] + [c];
      EscapeSnoc(s[1..], c);
    }
  }

  method CpJsonEscape(input: string) returns (out: string)
    ensures out == Escape(input)
  {
    hide Escape;
    out := "";
    assert input[..0] == "" && Escape("") == "" by { EscapeOfNothing(); }
    for i := 0 to |input|
      invariant out == Escape(input[..i])
    {
      var c := input[i];
      EscapeSnoc(input[..i], c);
      assert input[..i + 1] == input[..i] + [c];
      if c == '"' || c == '\\' {
        out := out + ['\\', c];
      } else if c as int < SPACE {
        out := out + ("\\u00" + [Hex(c as int / 16), Hex(c as int % 16)]);
      } else {
        out := out + [c];
      }
    }
    assert input[..|input|] == input;
  }

  lemma EscapeOfNothing()
    ensures Escape("") == ""
  {
  }

  // ------------------------------------------------------------------------------------------
  // Escaping and framing

  /** What the escaper writes can stand inside quotes. */
  lemma {:induction false} EscapedIsQuotable(s: string)
    ensures QuotedText(Escape(s))
  {
    if s != "" {
      EscapedIsQuotable(s[1..]);
      EscapeCharKeepsQuotable(s[0], Escape(s[1..]));
    }
  }

  lemma EscapeCharKeepsQuotable(c: char, rest: string)
    requires QuotedText(rest)
    ensures QuotedText(EscapeChar(c) + rest)
  {
    var text := EscapeChar(c) + rest;
    if c == '"' || c == '\\' {
      assert text[2..] == rest;
    } else if c as int < SPACE {
      var (h, l) := (Hex(c as int / 16), Hex(c as int % 16));
      assert text[6..] == rest && text[5] == l && text[4] == h;
      HexIsPlain(c as int / 16);
      HexIsPlain(c as int % 16);
      assert text[5..][1..] == rest;
      assert QuotedText(text[5..]);
      assert text[4..][1..] == text[5..];
      assert QuotedText(text[4..]);
      assert text[3..][1..] == text[4..];
      assert QuotedText(text[3..]);
      assert text[2..][1..] == text[3..];
      assert QuotedText(text[2..]);
    } else {
      assert text[1..] == rest;
    }
  }

  lemma HexIsPlain(d: int)
    requires 0 <= d < 16
    ensures Hex(d) != '"' && Hex(d) != '\\'
  {
  }

  /** A string value, whatever it holds, never moves the end the scanner finds for the object around
      it. */
  lemma EscapedValueKeepsFrame(before: seq<Json>, s: string, after: seq<Json>, rest: string)
    requires forall i :: 0 <= i < |before| ==> WellFormed(before[i])
    requires forall i :: 0 <= i < |after| ==> WellFormed(after[i])
    ensures var j := Group(true, before + [Quoted(Escape(s))] + after);
            && WellFormed(j)
            && (Nesting(j) <= MAX_DEPTH ==> Frame(Render(j) + rest) == Complete(|Render(j)|))
  {
    EscapedIsQuotable(s);
    var j := Group(true, before + [Quoted(Escape(s))] + after);
    FrameFindsObject(j, rest);
  }

  // ------------------------------------------------------------------------------------------
  // Reading back

  /** The byte at `i` of a C string. */
  function At(s: string, i: nat): char { if i < |s| then s[i] else NUL }

  function Unescape(c: char): Option<char> {
    if c == '"' || c == '\\' || c == '/' then Some(c)
    else if c == 'b' then Some(8 as char)
    else if c == 'f' then Some(12 as char)
    else if c == 'n' then Some(10 as char)
    else if c == 'r' then Some(13 as char)
    else if c == 't' then Some(9 as char)
    else None
  }

  /** `json_decode_str` from behind the opening quote, with `room` bytes left: bytes below 0x20 are
      refused even when they come from an escape. */
  function DecodeFrom(s: string, room: nat): Option<string>
    decreases |s|
  {
    if s == "" then None
    else if s[0] == '"' then Some("")
    else
      var escaped := s[0] == '\\';
      var c := if escaped then Unescape(At(s, 1)) else Some(s[0]);
      if c.None? || c.value as int < SPACE || room == 0 then None
      else
        var tail := DecodeFrom(if escaped then s[2..] else s[1..], room - 1);
        if tail.Some? then Some([c.value] + tail.value) else None
  }

  function Decode(p: string, outlen: int): Option<string> {
    if outlen <= 0 || At(p, 0) != '"' then None else DecodeFrom(p[1..], outlen - 1)
  }

  method JsonDecodeStr(p: string, outlen: int) returns (ok: bool, out: string)
    requires CString(p)
    ensures ok <==> Decode(p, outlen).Some?
    ensures ok ==> out == Decode(p, outlen).value
    ensures !ok ==> out == ""
  {
    out := "";
    if outlen <= 0 || At(p, 0) != '"' { return false, ""; }
    var at := 1;
    PrefixedNothing(DecodeFrom(p[1..], outlen - 1));
    while At(p, at) != NUL && At(p, at) != '"'
      invariant 1 <= at <= |p| && |out| <= outlen - 1
      invariant Decode(p, outlen) == Prefixed(out, DecodeFrom(p[at..], outlen - 1 - |out|))
      decreases |p| - at
    {
      var c := p[at];
      ghost var start := at;
      assert p[at..][0] == c && p[at..][1..] == p[at + 1..];
      at := at + 1;
      if c == '\\' {
        var u := Unescape(At(p, at));
        assert At(p[start..], 1) == At(p, at);
        if u.None? { return false, ""; }
        c := u.value;
        assert at < |p| && p[start..][2..] == p[at + 1..];
        at := at + 1;
      }
      if c as int < SPACE || |out| >= outlen - 1 { return false, ""; }
      out := out + [c];
      PrefixedStep(out[..|out| - 1], c, DecodeFrom(p[at..], outlen - 1 - |out|));
    }
    if At(p, at) != '"' { return false, ""; }
    assert p[at..][0] == '"';
    ok := true;
  }

  function Prefixed(out: string, rest: Option<string>): Option<string> {
    if rest.Some? then Some(out + rest.value) else None
  }

  lemma PrefixedNothing(rest: Option<string>)
    ensures Prefixed("", rest) == rest
  {
    if rest.Some? {
      assert "" + rest.value == rest.value;
    }
  }

  lemma PrefixedStep(out: string, c: char, rest: Option<string>)
    ensures Prefixed(out, Prefixed([c], rest)) == Prefixed(out + [c], rest)
  {
    if rest.Some? {
      assert out + ([c] + rest.value) == out + [c] + rest.value;
    }
  }

  predicate Printable(s: string) {
    forall i :: 0 <= i < |s| ==> s[i] as int >= SPACE
  }

  lemma {:induction false} DecodeEscaped(s: string, tail: string, room: nat)
    ensures DecodeFrom(Escape(s) + "\"" + tail, room)
            == if Printable(s) && |s| <= room then Some(s) else None
    decreases |s|
  {
    if s == "" {
      assert Escape(s) + "\"" + tail == "\"" + tail;
    } else {
      var (c, rest) := (s[0], Escape(s[1..]) + "\"" + tail);
      assert Escape(s) + "\"" + tail == EscapeChar(c) + rest;
      assert s == [c] + s[1..];
      assert Printable(s) <==> c as int >= SPACE && Printable(s[1..]);
      if room > 0 {
        DecodeEscaped(s[1..], tail, room - 1);
      }
      hide Escape, Printable;
      DecodeFirst(c, rest, room);
    }
  }

  lemma DecodeFirst(c: char, rest: string, room: nat)
    ensures DecodeFrom(EscapeChar(c) + rest, room)
            == if c as int < SPACE || room == 0 || DecodeFrom(rest, room - 1).None? then None
               else Some([c] + DecodeFrom(rest, room - 1).value)
  {
    var text := EscapeChar(c) + rest;
    if c == '"' || c == '\\' {
      assert text[0] == '\\' && text[1] == c && text[2..] == rest;
    } else if c as int < SPACE {
      assert text[0] == '\\' && text[1] == 'u';
    } else {
      assert text[0] == c && text[1..] == rest;
    }
  }

  /** A value as it stands in a message, in quotes, before `tail`. */
  function Written(s: string, tail: string): string {
    ['"'] + (Escape(s) + "\"" + tail)
  }

  /** What was written is read back exactly when it has no byte below 0x20 and fits. */
  lemma EscapeRoundTrip(s: string, tail: string, outlen: int)
    ensures Decode(Written(s, tail), outlen) == Some(s) <==> Printable(s) && |s| <= outlen - 1
  {
    if outlen > 0 {
      DecodeEscaped(s, tail, outlen - 1);
    }
    hide Escape, DecodeFrom, Printable;
    DecodeQuoted(Escape(s) + "\"" + tail, outlen);
  }

  lemma DecodeQuoted(body: string, outlen: int)
    ensures Decode(['"'] + body, outlen) == if outlen <= 0 then None else DecodeFrom(body, outlen - 1)
  {
    assert (['"'] + body)[1..] == body;
  }

  // ------------------------------------------------------------------------------------------
  // What the reader accepts

  /** A character of a string value, as it is or behind a backslash. */
  datatype Spelled = Raw(c: char) | Escaped(c: char)

  predicate Legal(x: Spelled) {
    match x
    case Raw(c) => c as int >= 0x20 && c != '"' && c != '\\'
    case Escaped(c) => c == '"' || c == '\\' || c == '/'
  }

  predicate AllLegal(xs: seq<Spelled>) { forall i :: 0 <= i < |xs| ==> Legal(xs[i]) }

  function Text(xs: seq<Spelled>): string {
    if xs == [] then ""
    else (if xs[0].Raw? then [xs[0].c] else ['\\', xs[0].c]) + Text(xs[1..])
  }

  function Chars(xs: seq<Spelled>): string { seq(|xs|, i requires 0 <= i < |xs| => xs[i].c) }

  /** Every legal spelling that fits is read as its characters, `\/` and other escapes of them included. */
  lemma {:induction false} SpelledIsRead(xs: seq<Spelled>, tail: string, room: nat)
    requires AllLegal(xs)
    ensures DecodeFrom(Text(xs) + "\"" + tail, room) == if |xs| <= room then Some(Chars(xs)) else None
    decreases |xs|
  {
    if xs == [] {
      assert Text(xs) + "\"" + tail == "\"" + tail;
    } else {
      var rest := Text(xs[1..]) + "\"" + tail;
      var head := if xs[0].Raw? then [xs[0].c] else ['\\', xs[0].c];
      assert Text(xs) + "\"" + tail == head + rest;
      assert xs[1..][..] == xs[1..] && Chars(xs) == [xs[0].c] + Chars(xs[1..]);
      if room > 0 { SpelledIsRead(xs[1..], tail, room - 1); }
      hide Text, Chars;
      assert Legal(xs[0]);
      SpelledFirst(xs[0], rest, room);
    }
  }

  lemma SpelledFirst(x: Spelled, rest: string, room: nat)
    requires Legal(x)
    ensures DecodeFrom((if x.Raw? then [x.c] else ['\\', x.c]) + rest, room)
            == if room == 0 || DecodeFrom(rest, room - 1).None? then None
               else Some([x.c] + DecodeFrom(rest, room - 1).value)
  {
    var text := (if x.Raw? then [x.c] else ['\\', x.c]) + rest;
    if x.Raw? {
      assert text[0] == x.c && text[1..] == rest;
    } else {
      assert text[0] == '\\' && text[1] == x.c && text[2..] == rest;
    }
  }

  /** Nothing else is accepted: what is read was spelled legally, up to the first quote that is not escaped. */
  lemma {:induction false} ReadWasSpelled(s: string, room: nat) returns (xs: seq<Spelled>, tail: string)
    requires DecodeFrom(s, room).Some?
    ensures AllLegal(xs) && s == Text(xs) + "\"" + tail
    ensures DecodeFrom(s, room).value == Chars(xs) && |xs| <= room
    decreases |s|
  {
    if s[0] == '"' {
      xs, tail := [], s[1..];
      assert s == Text(xs) + "\"" + tail;
    } else if s[0] == '\\' {
      xs, tail := ReadWasSpelled(s[2..], room - 1);
      SpelledBefore(Escaped(s[1]), xs, tail);
      assert s == ['\\', s[1]] + s[2..];
      xs := [Escaped(s[1])] + xs;
    } else {
      xs, tail := ReadWasSpelled(s[1..], room - 1);
      SpelledBefore(Raw(s[0]), xs, tail);
      assert s == [s[0]] + s[1..];
      xs := [Raw(s[0])] + xs;
    }
  }

  lemma SpelledBefore(x: Spelled, xs: seq<Spelled>, tail: string)
    ensures Text([x] + xs) + "\"" + tail
            == (if x.Raw? then [x.c] else ['\\', x.c]) + (Text(xs) + "\"" + tail)
    ensures Chars([x] + xs) == [x.c] + Chars(xs)
  {
    assert ([x] + xs)[1..] == xs;
  }

  /** The value of a hexadecimal digit. */
  function DigitValue(c: char): int {
    if '0' <= c <= '9' then c as int - '0' as int else if 'a' <= c <= 'f' then c as int - 'a' as int + 10 else -1
  }

  /** A control character is written as `\u00` and two digits of its number. */
  lemma ControlIsNumbered(c: char)
    requires c as int < 0x20
    ensures var e := EscapeChar(c);
            |e| == 6 && e[..4] == "\\u00" && DigitValue(e[4]) >= 0 && DigitValue(e[5]) >= 0
            && 16 * DigitValue(e[4]) + DigitValue(e[5]) == c as int
  {
    HexDigits(c as int / 16);
    HexDigits(c as int % 16);
  }

  lemma HexDigits(d: int)
    requires 0 <= d < 16
    ensures DigitValue(Hex(d)) == d
  {
  }
}
