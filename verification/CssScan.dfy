/**
 The three hand-written scanners of the theme parser. Each tracks quotes and
 escapes in its own loop; here they are loops proved against one shared state
 machine, so that what they agree on can be stated once.
 */
module CssScan {
  import opened Wrappers
  import opened Text

  datatype Quote = Unquoted | Single | Double

  datatype Scan = Scan(quote: Quote, escaped: bool)

  const IDLE := Scan(Unquoted, false)

  function Next(s: Scan, c: char): Scan {
    if s.escaped then s.(escaped := false)
    else if c == '\\' then s.(escaped := true)
    else if c == '\'' && s.quote != Double then s.(quote := if s.quote == Single then Unquoted else Single)
    else if c == '"' && s.quote != Single then s.(quote := if s.quote == Double then Unquoted else Double)
    else s
  }

  function After(s: Scan, text: string): Scan
    decreases |text|
  {
    if text == [] then s else After(Next(s, text[0]), text[1..])
  }

  /** The character stands outside every string and escape, and is none of their marks. */
  predicate Bare(s: Scan, c: char) {
    s == IDLE && c !in {'\\', '\'', '"'}
  }

  // ---------- comments

  /** The index of the first occurrence of the closing mark, or none. */
  function FindClose(text: string): (r: Result<nat>)
    ensures r.Ok? ==> r.value + 2 <= |text| && text[r.value] == '*' && text[r.value + 1] == '/'
  {
    if |text| < 2 then Err
    else if text[0] == '*' && text[1] == '/' then Ok(0)
    else match FindClose(text[1..]) case Err => Err case Ok(n) => Ok(n + 1)
  }

  predicate OpensComment(s: Scan, text: string) {
    |text| > 1 && Bare(s, text[0]) && text[0] == '/' && text[1] == '*'
  }

  function Strip(s: Scan, text: string): Result<string>
    decreases |text|
  {
    if text == [] then Ok([])
    else if OpensComment(s, text) then
      match FindClose(text[2..])
      case Err => Err
      case Ok(n) => Strip(s, text[n + 4..])
    else
      Prefixed([text[0]], Strip(Next(s, text[0]), text[1..]))
  }

  function Prefixed(head: string, r: Result<string>): Result<string> {
    match r
    case Err => Err
    case Ok(rest) => Ok(head + rest)
  }

  /** A comment opens at the index. */
  predicate OpensAt(s: Scan, input: string, i: nat) {
    i + 1 < |input| && Bare(s, input[i]) && input[i] == '/' && input[i + 1] == '*'
  }

  lemma StripKeeps(input: string, i: nat, s: Scan, buf: string)
    requires i < |input| && !OpensAt(s, input, i)
    ensures Prefixed(buf, Strip(s, input[i..])) ==
            Prefixed(buf + [input[i]], Strip(Next(s, input[i]), input[i + 1..]))
  {
    assert input[i..][1..] == input[i + 1..];
    PrefixedStep(buf, input[i], Strip(Next(s, input[i]), input[i + 1..]));
  }

  /** A comment is left out, or is the end of it if nothing closes it. */
  lemma StripSkips(input: string, i: nat, s: Scan, close: Result<nat>)
    requires OpensAt(s, input, i) && close == FindClose(input[i + 2..])
    ensures match close
            case Err => Strip(s, input[i..]) == Err
            case Ok(n) => Strip(s, input[i..]) == Strip(s, input[i + n + 4..])
  {
    assert input[i..][2..] == input[i + 2..];
    if close.Ok? {
      assert input[i..][close.value + 4..] == input[i + close.value + 4..];
    }
  }

  /** Where the text goes on after the comment at the index. */
  method FindCommentEnd(input: string, i: nat, ghost s: Scan) returns (end: Result<nat>)
    requires OpensAt(s, input, i)
    ensures match end
            case Err => Strip(s, input[i..]) == Err
            case Ok(n) => i < n <= |input| && Strip(s, input[i..]) == Strip(s, input[n..])
  {
    var close := FindClose(input[i + 2..]);
    StripSkips(input, i, s, close);
    return if close.Err? then Err else Ok(i + close.value + 4);
  }

  method StripCSSComments(input: string) returns (r: Result<string>)
    ensures r == Strip(IDLE, input)
  {
    var buf: string := [];
    var inSingle, inDouble, escaped := false, false, false;
    var i := 0;
    PrefixedEmpty(Strip(IDLE, input));
    while i < |input|
      invariant 0 <= i <= |input| && !(inSingle && inDouble)
      invariant Strip(IDLE, input) == Prefixed(buf, Strip(State(inSingle, inDouble, escaped), input[i..]))
    {
      var ch := input[i];
      ghost var s := State(inSingle, inDouble, escaped);
      if !escaped && !inSingle && !inDouble && ch == '/' && i + 1 < |input| && input[i + 1] == '*' {
        var end := FindCommentEnd(input, i, s);
        if end.Err? {
          return Err;
        }
        i := end.value;
        continue;
      }
      assert !OpensAt(s, input, i);
      StripKeeps(input, i, s, buf);
      buf := buf + [ch];
      inSingle, inDouble, escaped := Step(inSingle, inDouble, escaped, ch);
      i := i + 1;
    }
    assert buf + [] == buf;
    return Ok(buf);
  }

  /** The three flags after a character that is copied. */
  method Step(inSingle: bool, inDouble: bool, escaped: bool, ch: char)
    returns (single: bool, double: bool, escape: bool)
    requires !(inSingle && inDouble)
    ensures !(single && double)
    ensures State(single, double, escape) == Next(State(inSingle, inDouble, escaped), ch)
  {
    single, double, escape := inSingle, inDouble, escaped;
    if escaped {
      escape := false;
    } else if ch == '\\' {
      escape := true;
    } else if ch == '\'' && !inDouble {
      single := !inSingle;
    } else if ch == '"' && !inSingle {
      double := !inDouble;
    }
  }

  lemma PrefixedEmpty(r: Result<string>)
    ensures Prefixed([], r) == r
  {
    if r.Ok? {
      assert [] + r.value == r.value;
    }
  }

  lemma PrefixedStep(head: string, c: char, r: Result<string>)
    ensures Prefixed(head, Prefixed([c], r)) == Prefixed(head + [c], r)
  {
    if r.Ok? {
      assert head + ([c] + r.value) == head + [c] + r.value;
    }
  }

  // ---------- the end of a block

  function Shift(n: nat, r: Result<nat>): Result<nat> {
    match r
    case Err => Err
    case Ok(m) => Ok(n + m)
  }

  function DepthAfter(s: Scan, c: char, depth: nat): nat {
    if Bare(s, c) && c == '(' then depth + 1
    else if Bare(s, c) && c == ')' && depth > 0 then depth - 1
    else depth
  }

  function BlockEnd(text: string, s: Scan, depth: nat): (r: Result<nat>)
    ensures r.Ok? ==> r.value < |text| && text[r.value] == '}'
  {
    if text == [] || (Bare(s, text[0]) && text[0] == '{') then Err
    else if Bare(s, text[0]) && text[0] == '}' && depth == 0 then Ok(0)
    else Shift(1, BlockEnd(text[1..], Next(s, text[0]), DepthAfter(s, text[0], depth)))
  }

  /** The shared state behind the three flags of each loop. */
  function State(inSingle: bool, inDouble: bool, escaped: bool): Scan {
    Scan(if inSingle then Single else if inDouble then Double else Unquoted, escaped)
  }

  lemma BlockEndStep(input: string, i: nat, s: Scan, depth: nat)
    requires i < |input|
    ensures Shift(i, BlockEnd(input[i..], s, depth)) ==
            if Bare(s, input[i]) && input[i] == '{' then Err
            else if Bare(s, input[i]) && input[i] == '}' && depth == 0 then Ok(i)
            else Shift(i + 1, BlockEnd(input[i + 1..], Next(s, input[i]), DepthAfter(s, input[i], depth)))
  {
  }

  method FindBlockEnd(input: string, start: nat) returns (r: Result<nat>)
    requires start <= |input|
    ensures r == Shift(start, BlockEnd(input[start..], IDLE, 0))
  {
    var inSingle, inDouble, escaped := false, false, false;
    var depth := 0;
    var i := start;
    ghost var answer := Shift(start, BlockEnd(input[start..], IDLE, 0));
    while i < |input|
      invariant start <= i <= |input| && depth >= 0 && !(inSingle && inDouble)
      invariant answer == Shift(i, BlockEnd(input[i..], State(inSingle, inDouble, escaped), depth))
    {
      var ch := input[i];
      ghost var s, d := State(inSingle, inDouble, escaped), depth;
      BlockEndStep(input, i, s, d);
      if escaped {
        escaped := false;
      } else if ch == '\\' {
        escaped := true;
      } else if ch == '\'' && !inDouble {
        inSingle := !inSingle;
      } else if ch == '"' && !inSingle {
        inDouble := !inDouble;
      } else if !inSingle && !inDouble {
        if ch == '(' {
          depth := depth + 1;
        } else if ch == ')' {
          if depth > 0 {
            depth := depth - 1;
          }
        } else if ch == '{' {
          assert Bare(s, ch);
          return Err;
        } else if ch == '}' {
          if depth == 0 {
            assert Bare(s, ch);
            return Ok(i);
          }
        }
      }
      assert !(Bare(s, ch) && (ch == '{' || (ch == '}' && d == 0)));
      assert State(inSingle, inDouble, escaped) == Next(s, ch) && depth == DepthAfter(s, ch, d);
      i := i + 1;
    }
    return Err;
  }

  // ---------- the end of a declaration's value

  predicate Closes(open: char, close: char) {
    (open == '(' && close == ')') || (open == '[' && close == ']')
  }

  /** The open brackets after a character that ends neither the value nor the parse. */
  function BlocksAfter(s: Scan, c: char, blocks: string): string {
    if Bare(s, c) && (c == '(' || c == '[') then blocks + [c]
    else if Bare(s, c) && (c == ')' || c == ']') && blocks != [] then blocks[..|blocks| - 1]
    else blocks
  }

  /** The character makes the whole declaration an error. */
  predicate Breaks(s: Scan, c: char, blocks: string) {
    && Bare(s, c)
    && if c == ')' || c == ']' then blocks == [] || !Closes(blocks[|blocks| - 1], c) else c == '{' || c == '}'
  }

  predicate Stops(s: Scan, c: char, blocks: string) {
    Bare(s, c) && c == ';' && blocks == []
  }

  /** Where a value stops: at a semicolon outside every bracket, or with the text. */
  function ValueEnd(text: string, s: Scan, blocks: string): (r: Result<nat>)
    ensures r.Ok? ==> r.value <= |text| && (r.value < |text| ==> text[r.value] == ';')
    decreases text
  {
    if text == [] then (if blocks == [] then Ok(0) else Err)
    else if Breaks(s, text[0], blocks) then Err
    else if Stops(s, text[0], blocks) then Ok(0)
    else Shift(1, ValueEnd(text[1..], Next(s, text[0]), BlocksAfter(s, text[0], blocks)))
  }

  lemma ValueEndStep(body: string, i: nat, s: Scan, blocks: string)
    requires i < |body|
    ensures Shift(i, ValueEnd(body[i..], s, blocks)) ==
            if Breaks(s, body[i], blocks) then Err
            else if Stops(s, body[i], blocks) then Ok(i)
            else Shift(i + 1, ValueEnd(body[i + 1..], Next(s, body[i]), BlocksAfter(s, body[i], blocks)))
  {
  }

  method FindValueEnd(body: string, start: nat) returns (r: Result<nat>)
    requires start <= |body|
    ensures r == Shift(start, ValueEnd(body[start..], IDLE, []))
  {
    var inSingle, inDouble, escaped := false, false, false;
    var blocks: string := [];
    var i := start;
    while i < |body|
      invariant start <= i <= |body| && !(inSingle && inDouble)
      invariant Shift(start, ValueEnd(body[start..], IDLE, []))
             == Shift(i, ValueEnd(body[i..], State(inSingle, inDouble, escaped), blocks))
    {
      var ch := body[i];
      ghost var s, b := State(inSingle, inDouble, escaped), blocks;
      ValueEndStep(body, i, s, b);
      if escaped {
        escaped := false;
      } else if ch == '\\' {
        escaped := true;
      } else if ch == '\'' && !inDouble {
        inSingle := !inSingle;
      } else if ch == '"' && !inSingle {
        inDouble := !inDouble;
      } else if !inSingle && !inDouble && (ch == '(' || ch == '[') {
        blocks := blocks + [ch];
      } else if !inSingle && !inDouble && (ch == ')' || ch == ']') {
        if blocks == [] || !Closes(blocks[|blocks| - 1], ch) {
          assert Breaks(s, ch, b);
          return Err;
        }
        blocks := blocks[..|blocks| - 1];
      } else if !inSingle && !inDouble && |blocks| == 0 && ch == ';' {
        assert Stops(s, ch, b);
        return Ok(i);
      } else if !inSingle && !inDouble && (ch == '{' || ch == '}') {
        assert Breaks(s, ch, b);
        return Err;
      }
      assert !Breaks(s, ch, b) && !Stops(s, ch, b);
      assert State(inSingle, inDouble, escaped) == Next(s, ch) && blocks == BlocksAfter(s, ch, b);
      i := i + 1;
    }
    if |blocks| != 0 {
      return Err;
    }
    return Ok(i);
  }

  // ---------- what the scanners agree on

  lemma {:induction false} AfterAppend(s: Scan, a: string, b: string)
    ensures After(s, a + b) == After(After(s, a), b)
    decreases |a|
  {
    if a == [] {
      assert a + b == b;
    } else {
      assert (a + b)[1..] == a[1..] + b;
      AfterAppend(Next(s, a[0]), a[1..], b);
    }
  }

  /** Text none of the scanners reacts to outside strings. */
  predicate Inert(text: string) {
    forall i :: 0 <= i < |text| ==> text[i] !in {'\\', '\'', '"', '(', ')', '[', ']', '{', '}', '/'}
  }

  predicate HasComment(s: Scan, text: string)
    decreases |text|
  {
    text != [] && (OpensComment(s, text) || HasComment(Next(s, text[0]), text[1..]))
  }

  lemma {:induction false} InertScans(text: string)
    requires Inert(text)
    ensures After(IDLE, text) == IDLE && !HasComment(IDLE, text)
  {
    if text != [] {
      InertScans(text[1..]);
    }
  }

  lemma {:induction false} InertPassed(text: string, depth: nat, rest: string)
    requires Inert(text)
    ensures BlockEnd(text + rest, IDLE, depth) == Shift(|text|, BlockEnd(rest, IDLE, depth))
  {
    if text == [] {
      assert text + rest == rest;
    } else {
      BlockEndPasses(text, IDLE, depth, rest);
      InertPassed(text[1..], depth, rest);
    }
  }

  /** Text without comments is copied as it is, unless what follows completes a comment mark. */
  lemma {:induction false} StripCopies(s: Scan, text: string, rest: string)
    requires !HasComment(s, text) && (rest != [] ==> rest[0] != '*')
    ensures Strip(s, text + rest) == Prefixed(text, Strip(After(s, text), rest))
    decreases |text|
  {
    if text == [] {
      assert text + rest == rest;
      var r := Strip(s, rest);
      if r.Ok? {
        assert [] + r.value == r.value;
      }
    } else {
      StripStep(s, text, rest);
      StripCopies(Next(s, text[0]), text[1..], rest);
      PrefixedTwice(text, Strip(After(s, text), rest));
    }
  }

  lemma StripStep(s: Scan, text: string, rest: string)
    requires text != [] && !HasComment(s, text) && (rest != [] ==> rest[0] != '*')
    ensures Strip(s, text + rest) == Prefixed([text[0]], Strip(Next(s, text[0]), text[1..] + rest))
  {
    assert (text + rest)[1..] == text[1..] + rest;
  }

  lemma PrefixedTwice(text: string, r: Result<string>)
    requires text != []
    ensures Prefixed([text[0]], Prefixed(text[1..], r)) == Prefixed(text, r)
  {
    if r.Ok? {
      assert [text[0]] + (text[1..] + r.value) == text + r.value;
    }
  }

  lemma {:induction false} CommentIn(s: Scan, before: string, text: string, behind: string)
    requires HasComment(After(s, before), text)
    ensures HasComment(s, before + text + behind)
    decreases |before|, |text|
  {
    if before != [] {
      assert (before + text + behind)[1..] == before[1..] + text + behind;
      CommentIn(Next(s, before[0]), before[1..], text, behind);
    } else {
      assert before + text + behind == text + behind;
      if !OpensComment(s, text) {
        assert (text + behind)[1..] == [] + text[1..] + behind;
        CommentIn(Next(s, text[0]), [], text[1..], behind);
      }
    }
  }

  lemma {:induction false} NoCommentAppend(s: Scan, a: string, b: string)
    requires !HasComment(s, a) && !HasComment(After(s, a), b) && (b != [] ==> b[0] != '*')
    ensures !HasComment(s, a + b)
    decreases |a|
  {
    if a == [] {
      assert a + b == b;
    } else {
      assert (a + b)[1..] == a[1..] + b;
      NoCommentAppend(Next(s, a[0]), a[1..], b);
    }
  }

  function Parens(blocks: string): nat {
    if blocks == [] then 0 else Parens(blocks[..|blocks| - 1]) + if blocks[|blocks| - 1] == '(' then 1 else 0
  }

  /** A value the value scanner takes whole is still taken whole before a semicolon. */
  lemma {:induction false} WholeValueStops(text: string, s: Scan, blocks: string, rest: string)
    requires ValueEnd(text, s, blocks) == Ok(|text|) && After(s, text) == IDLE
    ensures ValueEnd(text + ";" + rest, s, blocks) == Ok(|text|)
  {
    if text == [] {
      assert (text + ";" + rest)[0] == ';';
    } else {
      assert (text + ";" + rest)[1..] == text[1..] + ";" + rest;
      WholeValueStops(text[1..], Next(s, text[0]), BlocksAfter(s, text[0], blocks), rest);
    }
  }

  lemma BlockEndPasses(text: string, s: Scan, depth: nat, rest: string)
    requires text != [] && !(Bare(s, text[0]) && (text[0] == '{' || text[0] == '}'))
    ensures BlockEnd(text + rest, s, depth) ==
            Shift(1, BlockEnd(text[1..] + rest, Next(s, text[0]), DepthAfter(s, text[0], depth)))
  {
    assert (text + rest)[1..] == text[1..] + rest;
  }

  lemma WholeValueStep(text: string, s: Scan, blocks: string)
    requires text != [] && ValueEnd(text, s, blocks) == Ok(|text|)
    ensures !Breaks(s, text[0], blocks)
    ensures ValueEnd(text[1..], Next(s, text[0]), BlocksAfter(s, text[0], blocks)) == Ok(|text| - 1)
  {
  }

  /** It ends every bracket it opens, so the block scanner passes it at the depth it came in with. */
  lemma {:induction false} WholeValuePassed(text: string, s: Scan, blocks: string, level: nat, depth: nat, rest: string)
    requires ValueEnd(text, s, blocks) == Ok(|text|) && After(s, text) == IDLE
    requires level == depth + Parens(blocks)
    ensures BlockEnd(text + rest, s, level) == Shift(|text|, BlockEnd(rest, IDLE, depth))
  {
    if text == [] {
      assert text + rest == rest && blocks == [];
    } else {
      var next, inside, inner := Next(s, text[0]), BlocksAfter(s, text[0], blocks), DepthAfter(s, text[0], level);
      WholeValueStep(text, s, blocks);
      BlockEndPasses(text, s, level, rest);
      ParensAfter(s, text[0], blocks, depth);
      WholeValuePassed(text[1..], next, inside, inner, depth, rest);
      ShiftTwice(|text| - 1, BlockEnd(rest, IDLE, depth));
    }
  }

  lemma ShiftTwice(n: nat, r: Result<nat>)
    ensures Shift(1, Shift(n, r)) == Shift(n + 1, r)
  {
  }

  lemma ParensAfter(s: Scan, c: char, blocks: string, depth: nat)
    requires !Breaks(s, c, blocks)
    ensures depth + Parens(BlocksAfter(s, c, blocks)) == DepthAfter(s, c, depth + Parens(blocks))
  {
  }

  lemma SpaceSkipped(left: string, text: string)
    requires left != [] && IsSpace(left[0])
    ensures ValueEnd(left + text, IDLE, []) == Shift(1, ValueEnd(left[1..] + text, IDLE, []))
  {
    SpaceIsPlain(left[0]);
    ValueEndTail(left + text, IDLE, []);
    assert (left + text)[0] == left[0] && (left + text)[1..] == left[1..] + text;
  }

  lemma SpaceIsPlain(c: char)
    requires IsSpace(c)
    ensures Next(IDLE, c) == IDLE && BlocksAfter(IDLE, c, []) == [] && !Breaks(IDLE, c, []) && !Stops(IDLE, c, [])
  {
  }

  lemma ValueEndTail(text: string, s: Scan, blocks: string)
    requires text != [] && !Breaks(s, text[0], blocks) && !Stops(s, text[0], blocks)
    ensures ValueEnd(text, s, blocks) ==
            Shift(1, ValueEnd(text[1..], Next(s, text[0]), BlocksAfter(s, text[0], blocks)))
  {
  }

  /** Nothing about a value changes when the spaces around it go. */
  lemma {:induction false} LeadingSpace(left: string, text: string)
    requires AllSpace(left)
    ensures ValueEnd(left + text, IDLE, []) == Shift(|left|, ValueEnd(text, IDLE, []))
  {
    if left == [] {
      assert left + text == text;
    } else {
      LeadingSpace(left[1..], text);
      SpaceSkipped(left, text);
    }
  }

  lemma {:induction false} TrailingSpace(text: string, s: Scan, blocks: string, right: string)
    requires AllSpace(right) && ValueEnd(text + right, s, blocks) == Ok(|text + right|)
    ensures ValueEnd(text, s, blocks) == Ok(|text|)
  {
    if text == [] {
      assert text + right == right;
      SpaceKeepsBlocks(right, s, blocks);
    } else {
      assert (text + right)[1..] == text[1..] + right;
      var c := text[0];
      var next := BlocksAfter(s, c, blocks);
      TrailingSpace(text[1..], Next(s, c), next, right);
    }
  }

  lemma {:induction false} SpaceKeepsBlocks(space: string, s: Scan, blocks: string)
    requires AllSpace(space) && ValueEnd(space, s, blocks).Ok?
    ensures blocks == []
  {
    if space != [] {
      SpaceKeepsBlocks(space[1..], Next(s, space[0]), blocks);
    }
  }

  /** What a value is up to its end does not depend on what comes after it. */
  lemma {:induction false} ValuePrefix(text: string, s: Scan, blocks: string)
    requires ValueEnd(text, s, blocks).Ok?
    ensures var n := ValueEnd(text, s, blocks).value;
            ValueEnd(text[..n], s, blocks) == Ok(n)
  {
    var n := ValueEnd(text, s, blocks).value;
    if n > 0 {
      var c := text[0];
      assert text[..n][1..] == text[1..][..n - 1];
      var next := BlocksAfter(s, c, blocks);
      ValuePrefix(text[1..], Next(s, c), next);
    }
  }
}
