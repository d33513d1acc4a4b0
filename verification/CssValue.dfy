/**
 What a theme value may contain: validation that forbids functions, priorities and
 open strings. It jumps over whole escapes and identifiers, where the scanners
 step one character at a time.
 */
module CssValue {
  import opened Wrappers
  import opened Text
  import opened CssScan

  const FORBIDDEN := {"expression", "image-set", "-webkit-image-set", "src", "url"}

  predicate IsControl(c: char) {
    c < ' ' || '\U{7F}' <= c <= '\U{9F}'
  }

  predicate IsHex(c: char) {
    '0' <= c <= '9' || 'a' <= c <= 'f' || 'A' <= c <= 'F'
  }

  predicate IsValueSpace(c: char) {
    c in {' ', '\t', '\n', '\r', '\U{C}'}
  }

  predicate IsNewline(c: char) {
    c in {'\n', '\r', '\U{C}'}
  }

  predicate StartsIdentifier(c: char) {
    c == '\\' || c == '-' || c == '_' || c >= '\U{80}'
    || 'a' <= c <= 'z' || 'A' <= c <= 'Z' || '0' <= c <= '9'
  }

  /** How many of the leading characters, at most limit, are hexadecimal digits. */
  function HexRun(text: string, limit: nat): (n: nat)
    ensures n <= limit && n <= |text| && forall i :: 0 <= i < n ==> IsHex(text[i])
  {
    if limit == 0 || text == [] || !IsHex(text[0]) then 0 else 1 + HexRun(text[1..], limit - 1)
  }

  function HexValue(digits: string): nat
    requires forall i :: 0 <= i < |digits| ==> IsHex(digits[i])
  {
    if digits == [] then 0 else
    var c := digits[|digits| - 1];
    assert IsHex(c);
    var d := if '0' <= c <= '9' then c as int - '0' as int
    else if 'a' <= c <= 'f' then c as int - 'a' as int + 10
    else c as int - 'A' as int + 10;
    16 * HexValue(digits[..|digits| - 1]) + d
  }

  function Rune(n: nat): char {
    if n == 0 || n > 0x10FFFF || 0xD800 <= n <= 0xDFFF then '\U{FFFD}' else n as char
  }

  datatype Escape = Escape(rune: char, length: nat)

  /** The escape that starts at the text's backslash. */
  function ReadEscape(text: string): (r: Result<Escape>)
    requires text != [] && text[0] == '\\'
    ensures r.Ok? ==> 2 <= r.value.length <= |text|
  {
    if |text| < 2 || IsNewline(text[1]) then Err
    else if !IsHex(text[1]) then Ok(Escape(text[1], 2))
    else
      var n := 1 + HexRun(text[1..], 6);
      assert HexRun(text[1..], 6) >= 1;
      Ok(Escape(Rune(HexValue(text[1..n])), n + SpaceAfterHex(text[n..])))
  }

  /** One white space after the digits belongs to the escape; CRLF counts as one. */
  function SpaceAfterHex(text: string): (n: nat)
    ensures n <= |text| && forall i :: 0 <= i < n ==> IsValueSpace(text[i])
  {
    if text == [] || !IsValueSpace(text[0]) then 0
    else if text[0] == '\r' && |text| > 1 && text[1] == '\n' then 2
    else 1
  }

  function SkipStringEscape(text: string): (r: Result<nat>)
    requires text != [] && text[0] == '\\'
    ensures r.Ok? ==> 2 <= r.value <= |text|
  {
    if |text| < 2 then Err
    else if text[1] == '\r' && |text| > 2 && text[2] == '\n' then Ok(3)
    else if IsNewline(text[1]) then Ok(2)
    else match ReadEscape(text) case Err => Err case Ok(e) => Ok(e.length)
  }

  datatype Identifier = Identifier(name: string, length: nat)

  function ReadIdentifier(text: string): (r: Result<Identifier>)
    ensures r.Ok? ==> r.value.length <= |text|
    ensures r.Ok? && text != [] && StartsIdentifier(text[0]) ==> r.value.length > 0
    decreases |text|
  {
    if text == [] || !StartsIdentifier(text[0]) then Ok(Identifier([], 0))
    else if text[0] == '\\' then
      match ReadEscape(text)
      case Err => Err
      case Ok(e) =>
        match ReadIdentifier(text[e.length..])
        case Err => Err
        case Ok(id) => Ok(Identifier([e.rune] + id.name, e.length + id.length))
    else
      match ReadIdentifier(text[1..])
      case Err => Err
      case Ok(id) => Ok(Identifier([text[0]] + id.name, 1 + id.length))
  }

  function SkipValueSpace(text: string): string {
    if text != [] && IsValueSpace(text[0]) then SkipValueSpace(text[1..]) else text
  }

  /**
   Lower case, as far as an ASCII name can tell: the Kelvin sign and the dotted
   capital I are the only others whose lower case is an ASCII letter.
   */
  function LowerChar(c: char): char {
    if 'A' <= c <= 'Z' then c + ' '
    else if c == '\U{212A}' then 'k'
    else if c == '\U{130}' then 'i'
    else c
  }

  function Lower(s: string): (r: string)
    ensures |r| == |s|
  {
    if s == [] then [] else [LowerChar(s[0])] + Lower(s[1..])
  }

  /** Simple case folding, as far as the word "important" can tell. */
  predicate IsImportant(s: string) {
    var word := "important";
    |s| == |word| && forall i :: 0 <= i < |word| ==> s[i] == word[i] || ('A' <= s[i] <= 'Z' && s[i] + ' ' == word[i])
  }

  function Mark(q: Quote): char
    requires q != Unquoted
  {
    if q == Single then '\'' else '"'
  }

  /** The rest of a value is acceptable, read from inside the given quote. */
  predicate Check(text: string, q: Quote)
    decreases |text|
  {
    if text == [] then q == Unquoted else
    var c := text[0];
    if q != Unquoted then
      if c == '\\' then
        var n := SkipStringEscape(text);
        n.Ok? && Check(text[n.value..], q)
      else if c == Mark(q) then Check(text[1..], Unquoted)
      else !IsNewline(c) && Check(text[1..], q)
    else if c == '\'' then Check(text[1..], Single)
    else if c == '"' then Check(text[1..], Double)
    else if c == '!' then
      var id := ReadIdentifier(SkipValueSpace(text[1..]));
      id.Ok? && !IsImportant(id.value.name) && Check(text[1..], Unquoted)
    else if !StartsIdentifier(c) then Check(text[1..], Unquoted)
    else
      var id := ReadIdentifier(text);
      && id.Ok?
      && !(id.value.length < |text| && text[id.value.length] == '(' && Lower(id.value.name) in FORBIDDEN)
      && Check(text[id.value.length..], Unquoted)
  }

  predicate ValidValue(value: string) {
    && (forall i :: 0 <= i < |value| ==> IsControl(value[i]) ==> value[i] in {'\t', '\n', '\r'})
    && Check(value, Unquoted)
  }

  /** The loop over a value that rejects control characters other than tabs and line ends. */
  method HasPlainControls(value: string) returns (ok: bool)
    ensures ok == forall i :: 0 <= i < |value| ==> IsControl(value[i]) ==> value[i] in {'\t', '\n', '\r'}
  {
    for j := 0 to |value|
      invariant forall i :: 0 <= i < j ==> IsControl(value[i]) ==> value[i] in {'\t', '\n', '\r'}
    {
      if IsControl(value[j]) && value[j] !in {'\t', '\n', '\r'} {
        return false;
      }
    }
    return true;
  }

  method ValidateThemeValue(value: string) returns (ok: bool)
    ensures ok == ValidValue(value)
  {
    ok := HasPlainControls(value);
    if ok {
      ok := CheckValue(value);
    }
  }

  /** The loop over a value that follows strings, identifiers and escapes. */
  method CheckValue(value: string) returns (ok: bool)
    ensures ok == Check(value, Unquoted)
  {
    var quote := Unquoted;
    var i := 0;
    ghost var answer := Check(value, Unquoted);
    while i < |value|
      invariant 0 <= i <= |value|
      invariant answer == Check(value[i..], quote)
      decreases |value| - i
    {
      var ch := value[i];
      assert value[i..][1..] == value[i + 1..];
      if quote != Unquoted {
        if ch == '\\' {
          var next := SkipStringEscape(value[i..]);
          if next.Err? {
            return false;
          }
          assert value[i..][next.value..] == value[i + next.value..];
          i := i + next.value;
          continue;
        }
        if ch == Mark(quote) {
          quote := Unquoted;
        } else if IsNewline(ch) {
          return false;
        }
        i := i + 1;
        continue;
      }
      if ch == '\'' || ch == '"' {
        quote := if ch == '\'' then Single else Double;
        i := i + 1;
        continue;
      }
      if ch == '!' {
        var ident := ReadIdentifier(SkipValueSpace(value[i + 1..]));
        if ident.Err? || IsImportant(ident.value.name) {
          return false;
        }
        i := i + 1;
        continue;
      }
      if !StartsIdentifier(ch) {
        i := i + 1;
        continue;
      }
      var ident := ReadIdentifier(value[i..]);
      if ident.Err? {
        return false;
      }
      var end := ident.value.length;
      assert end < |value| - i ==> value[i..][end] == value[i + end];
      assert value[i..][end..] == value[i + end..];
      if i + end < |value| && value[i + end] == '(' && Lower(ident.value.name) in FORBIDDEN {
        return false;
      }
      i := i + end;
    }
    return quote == Unquoted;
  }

  // ---------- agreement with the scanners

  predicate Unmarked(text: string) {
    forall i :: 0 <= i < |text| ==> text[i] !in {'\\', '\'', '"'}
  }

  lemma {:induction false} UnmarkedKeeps(s: Scan, text: string)
    requires Unmarked(text) && !s.escaped
    ensures After(s, text) == s
  {
    if text != [] {
      UnmarkedKeeps(s, text[1..]);
    }
  }

  /** A backslash, one escaped character, and no further mark. */
  lemma EscapeKeeps(q: Quote, text: string, n: nat)
    requires 2 <= n <= |text| && text[0] == '\\' && Unmarked(text[2..n])
    ensures After(Scan(q, false), text[..n]) == Scan(q, false)
  {
    assert text[..n] == text[..2] + text[2..n];
    AfterAppend(Scan(q, false), text[..2], text[2..n]);
    assert text[..2][1..] == [text[1]] && [text[1]][1..] == [];
    UnmarkedKeeps(Scan(q, false), text[2..n]);
  }

  lemma ReadEscapeKeeps(q: Quote, text: string)
    requires text != [] && text[0] == '\\' && ReadEscape(text).Ok?
    ensures After(Scan(q, false), text[..ReadEscape(text).value.length]) == Scan(q, false)
  {
    var n := ReadEscape(text).value.length;
    if IsHex(text[1]) {
      var m := 1 + HexRun(text[1..], 6);
      forall i | 0 <= i < |text[2..n]| ensures text[2..n][i] !in {'\\', '\'', '"'} {
        if i + 2 < m {
          assert text[2..n][i] == text[1..][i + 1];
        } else {
          assert text[2..n][i] == text[m..][i + 2 - m];
        }
      }
    }
    EscapeKeeps(q, text, n);
  }

  lemma SkipStringEscapeKeeps(q: Quote, text: string)
    requires text != [] && text[0] == '\\' && SkipStringEscape(text).Ok?
    ensures After(Scan(q, false), text[..SkipStringEscape(text).value]) == Scan(q, false)
  {
    if text[1] == '\r' && |text| > 2 && text[2] == '\n' {
      assert text[2..3] == "\n";
      EscapeKeeps(q, text, 3);
    } else if IsNewline(text[1]) {
      EscapeKeeps(q, text, 2);
    } else {
      ReadEscapeKeeps(q, text);
    }
  }

  lemma {:induction false} ReadIdentifierKeeps(text: string)
    requires ReadIdentifier(text).Ok?
    ensures After(IDLE, text[..ReadIdentifier(text).value.length]) == IDLE
    decreases |text|
  {
    if text != [] && StartsIdentifier(text[0]) {
      var n, m := ReadIdentifier(text).value.length, HeadLength(text);
      IdentifierHeadKeeps(text);
      ReadIdentifierKeeps(text[m..]);
      IdleAcross(text, m, n);
    }
  }

  lemma IdleAcross(text: string, m: nat, n: nat)
    requires m <= n <= |text| && After(IDLE, text[..m]) == IDLE && After(IDLE, text[m..][..n - m]) == IDLE
    ensures After(IDLE, text[..n]) == IDLE
  {
    assert text[..n] == text[..m] + text[m..][..n - m];
    AfterAppend(IDLE, text[..m], text[m..][..n - m]);
  }

  /** The length of an identifier's first character, which may be written as an escape. */
  function HeadLength(text: string): (n: nat)
    requires text != [] && (text[0] == '\\' ==> ReadEscape(text).Ok?)
    ensures 0 < n <= |text|
  {
    if text[0] == '\\' then ReadEscape(text).value.length else 1
  }

  lemma IdentifierHeadKeeps(text: string)
    requires text != [] && StartsIdentifier(text[0]) && ReadIdentifier(text).Ok?
    ensures text[0] == '\\' ==> ReadEscape(text).Ok?
    ensures After(IDLE, text[..HeadLength(text)]) == IDLE
    ensures ReadIdentifier(text[HeadLength(text)..]).Ok?
    ensures ReadIdentifier(text).value.length ==
      HeadLength(text) + ReadIdentifier(text[HeadLength(text)..]).value.length
  {
    if text[0] == '\\' {
      ReadEscapeKeeps(Unquoted, text);
    } else {
      assert text[..1][1..] == [];
    }
  }

  /** An accepted value leaves every scanner outside strings and escapes. */
  lemma {:induction false} CheckEndsIdle(text: string, q: Quote)
    requires Check(text, q)
    ensures After(Scan(q, false), text) == IDLE
    decreases |text|
  {
    if text != [] {
      var n, next := 1, Next(Scan(q, false), text[0]).quote;
      if q != Unquoted && text[0] == '\\' {
        n, next := SkipStringEscape(text).value, q;
        SkipStringEscapeKeeps(q, text);
      } else if q == Unquoted && StartsIdentifier(text[0]) {
        n := ReadIdentifier(text).value.length;
        next := Unquoted;
        ReadIdentifierKeeps(text);
      } else {
        assert text[..1][1..] == [];
      }
      CheckEndsIdle(text[n..], next);
      assert text == text[..n] + text[n..];
      AfterAppend(Scan(q, false), text[..n], text[n..]);
    }
  }
}
