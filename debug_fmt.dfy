/** Rust's `{:?}` (Debug) rendering of a `String`: the text between double
    quotes, with quote, backslash and the common control characters escaped.
    `Unescape` is the reading direction; together they show that the quoted
    rendering loses nothing. */
module DebugFmt {
  import opened Wrappers

  /** The character that follows a backslash for each escaped character. */
  function EscapeLetter(c: char): Option<char>
  {
    if c == '\0' then Some('0')
    else if c == '\t' then Some('t')
    else if c == '\r' then Some('r')
    else if c == '\n' then Some('n')
    else if c == '\\' then Some('\\')
    else if c == '"' then Some('"')
    else None
  }

  /** Inverse of `EscapeLetter`: the character a backslash sequence stands for. */
  function UnescapeLetter(l: char): (r: Option<char>)
    ensures r.Some? ==> EscapeLetter(r.value) == Some(l)
  {
    if l == '0' then Some('\0')
    else if l == 't' then Some('\t')
    else if l == 'r' then Some('\r')
    else if l == 'n' then Some('\n')
    else if l == '\\' then Some('\\')
    else if l == '"' then Some('"')
    else None
  }

  /** One character as Debug writes it inside the quotes. */
  function EscapeChar(c: char): (r: string)
    ensures 1 <= |r| <= 2
    ensures |r| == 1 <==> EscapeLetter(c).None?
    ensures |r| == 1 ==> r[0] == c
    ensures |r| == 2 ==> r[0] == '\\' && UnescapeLetter(r[1]) == Some(c)
  {
    match EscapeLetter(c)
    case Some(l) => ['\\', l]
    case None => [c]
  }

  /** The body of a Debug-rendered string, without the surrounding quotes.
      It loses nothing: `Unescape` reads every body back to its string. */
  function Escape(s: string): (r: string)
    ensures Unescape(r) == Some(s)
  {
    if s == [] then [] else
      var c, e, rest := s[0], EscapeChar(s[0]), Escape(s[1..]);
      assert |e| == 2 ==> (e + rest)[0] == '\\' && (e + rest)[1] == e[1] && (e + rest)[2..] == rest;
      assert |e| == 1 ==> (e + rest)[0] == c && (e + rest)[1..] == rest;
      assert [c] + s[1..] == s;
      e + rest
  }

  /** Reads back the body written by `Escape`; `None` for a body `Escape` never writes. */
  function Unescape(t: string): (r: Option<string>)
  {
    if t == [] then Some([])
    else if t[0] == '\\' then
      if |t| < 2 then None
      else match (UnescapeLetter(t[1]), Unescape(t[2..]))
        case (Some(c), Some(rest)) => Some([c] + rest)
        case _ => None
    else if EscapeLetter(t[0]).Some? then None
    else match Unescape(t[1..])
      case Some(rest) => Some([t[0]] + rest)
      case None => None
  }

  /** Conversely, whatever `Unescape` accepts is exactly the body `Escape`
      writes for the string it reads: a body has one reading and one writing. */
  lemma {:induction false} EscapeOfUnescape(t: string, s: string)
    requires Unescape(t) == Some(s)
    ensures Escape(s) == t
    decreases |t|
  {
    if t != [] {
      if t[0] == '\\' {
        var c, rest := UnescapeLetter(t[1]).value, Unescape(t[2..]).value;
        EscapeOfUnescape(t[2..], rest);
        assert s[0] == c && s[1..] == rest;
        assert EscapeChar(c) == ['\\', t[1]];
        assert t == ['\\', t[1]] + t[2..];
      } else {
        var rest := Unescape(t[1..]).value;
        EscapeOfUnescape(t[1..], rest);
        assert s[0] == t[0] && s[1..] == rest;
        assert t == [t[0]] + t[1..];
      }
    }
  }

  /** `Escape` is injective, so distinct strings render differently. */
  lemma EscapeInjective(s: string, t: string)
    requires Escape(s) == Escape(t)
    ensures s == t
  {
  }

  /** `{:?}` on a `String`: the escaped body between double quotes. */
  function DebugStr(s: string): (r: string)
    ensures |r| >= 2 && r[0] == '"' && r[|r| - 1] == '"'
    ensures ReadDebugStr(r) == Some(s)
  {
    var r := "\"" + Escape(s) + "\"";
    assert r[1..|r| - 1] == Escape(s);
    r
  }

  /** A quoted rendering that reads back to `s` is the rendering of `s`. */
  lemma DebugStrOfRead(t: string, s: string)
    requires ReadDebugStr(t) == Some(s)
    ensures t == DebugStr(s)
  {
    EscapeOfUnescape(t[1..|t| - 1], s);
    assert t == "\"" + t[1..|t| - 1] + "\"";
  }

  /** Reads a quoted Debug rendering back to the string it shows. */
  function ReadDebugStr(t: string): (r: Option<string>)
  {
    if |t| >= 2 && t[0] == '"' && t[|t| - 1] == '"' then Unescape(t[1..|t| - 1]) else None
  }
}
