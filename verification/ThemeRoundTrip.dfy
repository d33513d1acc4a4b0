/**
 Printing a parsed theme and parsing it again. Everything the parser accepts is
 in the form described by GoodDecl; a theme in that form is read back unchanged
 exactly when it fits the limits and no value opens a comment.
 */
module ThemeRoundTrip {
  import opened Wrappers
  import opened Text
  import opened CssScan
  import opened CssValue
  import opened ThemeCss

  predicate GoodDecl(d: Decl) {
    ValidDecl(d) && Trimmed(d.value) && ValueEnd(d.value, IDLE, []) == Ok(|d.value|)
  }

  predicate GoodDecls(ds: seq<Decl>) {
    forall d :: d in ds ==> GoodDecl(d)
  }

  predicate Good(theme: Theme) {
    GoodDecls(theme.light) && GoodDecls(theme.dark)
  }

  predicate OpensComments(ds: seq<Decl>) {
    exists d :: d in ds && HasComment(IDLE, d.value)
  }

  // ---------- what the parser produces

  lemma DeclarationIsGood(text: string)
    requires Declaration(text).Ok?
    ensures GoodDecl(Declaration(text).value.0)
  {
    var (n, k) := DeclEnds(text).value;
    ValuePrefix(text[n + 1..], IDLE, []);
    TrimmedValueIsWhole(text[n + 1..][..k]);
  }

  lemma TrimmedValueIsWhole(seg: string)
    requires ValueEnd(seg, IDLE, []) == Ok(|seg|)
    ensures Trimmed(Trim(seg)) && ValueEnd(Trim(seg), IDLE, []) == Ok(|Trim(seg)|)
  {
    var left, right := TrimCuts(seg);
    CutValueIsWhole(left, Trim(seg), right);
  }

  lemma CutValueIsWhole(left: string, value: string, right: string)
    requires AllSpace(left) && AllSpace(right)
    requires ValueEnd(left + value + right, IDLE, []) == Ok(|left + value + right|)
    ensures ValueEnd(value, IDLE, []) == Ok(|value|)
  {
    assert left + value + right == left + (value + right);
    LeadingSpace(left, value + right);
    TrailingSpace(value, IDLE, [], right);
  }

  lemma {:induction false} DeclarationsAreGood(body: string)
    requires Declarations(body).Ok?
    ensures GoodDecls(Declarations(body).value)
    decreases |body|
  {
    var text := SkipGap(body);
    if text != [] {
      DeclarationIsGood(text);
      DeclarationsAreGood(Declaration(text).value.1);
    }
  }

  lemma {:induction false} BlocksAreGood(id: string, text: string, theme: Theme)
    requires Good(theme) && |theme.light| + |theme.dark| <= MAX_DECLS && ParseBlocks(id, text, theme).Ok?
    ensures var r := ParseBlocks(id, text, theme).value;
            Good(r) && |r.light| + |r.dark| <= MAX_DECLS
    decreases |text|
  {
    var text := SkipBlank(text);
    if text != [] {
      var block := ParseBlock(id, text).value;
      var (open, n) := BlockEnds(text).value;
      DeclarationsAreGood(text[open + 1..][..n]);
      BlocksAreGood(id, block.rest, AddTo(theme, block.mode, block.decls));
    }
  }

  lemma ParsedIsGood(id: string, raw: string)
    requires Parse(id, raw).Ok?
    ensures Good(Parse(id, raw).value)
    ensures |Parse(id, raw).value.light| + |Parse(id, raw).value.dark| <= MAX_DECLS
  {
    var cleaned := Strip(IDLE, raw).value;
    if Trim(cleaned) != [] {
      BlocksAreGood(id, cleaned, Theme([], []));
    }
  }

  // ---------- reading a printed declaration

  /** A declaration's text before its value. */
  function Head(d: Decl): string {
    "  " + d.name + ": "
  }

  lemma HeadIsInert(d: Decl)
    requires ValidName(d.name)
    ensures Inert(Head(d))
  {
  }

  lemma ScannersPassValue(value: string, tail: string, rest: string)
    requires After(IDLE, value) == IDLE && ValueEnd(value, IDLE, []) == Ok(|value|) && Inert(tail)
    ensures BlockEnd(value + (tail + rest), IDLE, 0) == Shift(|value| + |tail|, BlockEnd(rest, IDLE, 0))
  {
    InertPassed(tail, 0, rest);
    WholeValuePassed(value, IDLE, [], 0, 0, tail + rest);
  }

  lemma ScannersPassDecl(d: Decl, rest: string)
    requires GoodDecl(d)
    ensures BlockEnd(DeclText(d) + rest, IDLE, 0) == Shift(|DeclText(d)|, BlockEnd(rest, IDLE, 0))
  {
    CheckEndsIdle(d.value, Unquoted);
    HeadIsInert(d);
    ScannersPassParts(Head(d), d.value, ";\n", rest);
  }

  lemma ScannersPassParts(head: string, value: string, tail: string, rest: string)
    requires Inert(head) && Inert(tail)
    requires After(IDLE, value) == IDLE && ValueEnd(value, IDLE, []) == Ok(|value|)
    ensures BlockEnd(head + value + tail + rest, IDLE, 0) == Shift(|head + value + tail|, BlockEnd(rest, IDLE, 0))
  {
    ScannersPassValue(value, tail, rest);
    InertPassed(head, 0, value + (tail + rest));
    Reassociate(head, value, tail, rest);
  }

  lemma ScansDecl(d: Decl)
    requires GoodDecl(d)
    ensures After(IDLE, DeclText(d)) == IDLE
    ensures HasComment(IDLE, DeclText(d)) <==> HasComment(IDLE, d.value)
  {
    var head := Head(d);
    CheckEndsIdle(d.value, Unquoted);
    HeadIsInert(d);
    InertScans(head);
    InertScans(";\n");
    assert DeclText(d) == head + d.value + ";\n";
    AfterAppend(IDLE, head, d.value);
    AfterAppend(IDLE, head + d.value, ";\n");
    if HasComment(IDLE, d.value) {
      CommentIn(IDLE, head, d.value, ";\n");
    } else {
      NoCommentAppend(IDLE, d.value, ";\n");
      AfterAppend(IDLE, d.value, ";\n");
      assert DeclText(d) == head + (d.value + ";\n");
      if d.value[0] == '*' {
        NoStarComment(head, d.value + ";\n");
      } else {
        NoCommentAppend(IDLE, head, d.value + ";\n");
      }
    }
  }

  /** Inert text holds no slash, so nothing after it can turn it into a comment. */
  lemma {:induction false} NoStarComment(head: string, text: string)
    requires Inert(head) && !HasComment(IDLE, text)
    ensures !HasComment(IDLE, head + text)
  {
    if head == [] {
      assert head + text == text;
    } else {
      assert (head + text)[1..] == head[1..] + text;
      NoStarComment(head[1..], text);
    }
  }

  lemma {:induction false} NameEndsAtColon(name: string, rest: string)
    requires forall i :: 0 <= i < |name| ==> IsNameChar(name[i])
    ensures NameEnd(name + ":" + rest) == Ok(|name|)
  {
    if name == [] {
      assert (name + ":" + rest)[0] == ':';
    } else {
      assert (name + ":" + rest)[1..] == name[1..] + ":" + rest;
      NameEndsAtColon(name[1..], rest);
    }
  }

  /** A declaration's text from its name on, with what follows it. */
  function FromName(d: Decl, rest: string): string {
    d.name + ":" + FromValue(d, rest)
  }

  function FromValue(d: Decl, rest: string): string {
    " " + d.value + ";" + rest
  }

  lemma ValueTextEnds(d: Decl, rest: string)
    requires GoodDecl(d)
    ensures ValueEnd(FromValue(d, rest), IDLE, []) == Ok(|d.value| + 1)
  {
    var text := d.value + ";" + rest;
    CheckEndsIdle(d.value, Unquoted);
    WholeValueStops(d.value, IDLE, [], rest);
    assert ValueEnd(text, IDLE, []) == Ok(|d.value|);
    OneSpaceEnds(" ", text);
    assert FromValue(d, rest) == " " + text;
  }

  lemma OneSpaceEnds(space: string, text: string)
    requires |space| == 1 && AllSpace(space) && ValueEnd(text, IDLE, []).Ok?
    ensures ValueEnd(space + text, IDLE, []) == Ok(ValueEnd(text, IDLE, []).value + 1)
  {
  }

  lemma DeclTextEnds(d: Decl, rest: string)
    requires GoodDecl(d)
    ensures DeclEnds(FromName(d, rest)) == Ok((|d.name|, |d.value| + 1))
    ensures FromName(d, rest)[|d.name| + 1..] == FromValue(d, rest)
  {
    NameEndsAtColon(d.name, FromValue(d, rest));
    ValueTextEnds(d, rest);
    assert FromName(d, rest)[0] == d.name[0];
  }

  lemma TrimsToItself(core: string, left: string)
    requires Trimmed(core) && AllSpace(left)
    ensures Trim(left + core) == core
  {
    TrimUnpads(left, core, []);
    assert left + core + [] == left + core;
  }

  lemma DeclTextReadsBack(d: Decl, rest: string)
    requires GoodDecl(d)
    ensures Declaration(FromName(d, rest)) == Ok((d, rest))
  {
    var text := FromName(d, rest);
    DeclTextEnds(d, rest);
    DeclTextTrims(d, rest, text, " ");
    assert FromValue(d, rest)[|d.value| + 1..][1..] == rest;
  }

  lemma DeclTextTrims(d: Decl, rest: string, text: string, space: string)
    requires GoodDecl(d) && AllSpace(space) && |space| == 1
    requires text == d.name + ":" + (space + d.value + ";" + rest)
    ensures DeclAt(text, |d.name|, |d.value| + 1) == d
  {
    assert text[..|d.name|] == [] + d.name;
    assert text[|d.name| + 1..][..|d.value| + 1] == space + d.value;
    NameIsTrimmed(d.name);
    TrimsToItself(d.name, []);
    TrimsToItself(d.value, space);
  }

  lemma NameIsTrimmed(name: string)
    requires ValidName(name)
    ensures Trimmed(name)
  {
  }

  lemma SkipsToName(d: Decl, more: string)
    requires GoodDecl(d)
    ensures SkipGap("\n" + (DeclText(d) + more)) == FromName(d, "\n" + more)
  {
    var text := FromName(d, "\n" + more);
    var one, two := " " + text, "  " + text;
    assert "\n" + (DeclText(d) + more) == "\n" + two;
    assert text[0] == d.name[0] == '-';
    assert one == [' '] + text && two == [' '] + one && "\n" + two == ['\n'] + two;
    GapIsSkipped(' ', text);
    GapIsSkipped(' ', one);
    GapIsSkipped('\n', two);
  }

  lemma GapIsSkipped(gap: char, text: string)
    requires IsGap(gap)
    ensures SkipGap([gap] + text) == SkipGap(text)
  {
  }

  lemma {:induction false} DeclTextsReadBack(ds: seq<Decl>)
    requires GoodDecls(ds)
    ensures Declarations("\n" + DeclTexts(ds)) == Ok(ds)
  {
    var body := "\n" + DeclTexts(ds);
    assert body[1..] == DeclTexts(ds);
    if ds == [] {
      assert SkipGap(body) == SkipGap([]);
    } else {
      var d, more := ds[0], DeclTexts(ds[1..]);
      SkipsToName(d, more);
      DeclTextReadsBack(d, "\n" + more);
      DeclTextsReadBack(ds[1..]);
      assert Declarations(body) == Appended([d], Ok(ds[1..]));
      assert [d] + ds[1..] == ds;
    }
  }

  lemma {:induction false} ScannersPassDecls(ds: seq<Decl>, rest: string)
    requires GoodDecls(ds)
    ensures BlockEnd(DeclTexts(ds) + rest, IDLE, 0) == Shift(|DeclTexts(ds)|, BlockEnd(rest, IDLE, 0))
  {
    if ds == [] {
      assert DeclTexts(ds) + rest == rest;
    } else {
      var head, more := DeclText(ds[0]), DeclTexts(ds[1..]);
      ScannersPassDecl(ds[0], more + rest);
      ScannersPassDecls(ds[1..], rest);
      Reassociate(head, more, rest, []);
      ShiftTwice(|head|, |more|, BlockEnd(rest, IDLE, 0));
    }
  }

  lemma ShiftTwice(a: nat, b: nat, r: Result<nat>)
    ensures Shift(a, Shift(b, r)) == Shift(a + b, r)
  {
  }

  lemma {:induction false} ScansDecls(ds: seq<Decl>)
    requires GoodDecls(ds)
    ensures After(IDLE, DeclTexts(ds)) == IDLE
    ensures HasComment(IDLE, DeclTexts(ds)) <==> OpensComments(ds)
  {
    if ds != [] {
      var text, more := DeclText(ds[0]), DeclTexts(ds[1..]);
      ScansDecl(ds[0]);
      ScansDecls(ds[1..]);
      AfterAppend(IDLE, text, more);
      if HasComment(IDLE, text) {
        CommentIn(IDLE, [], text, more);
        assert [] + text + more == text + more;
      } else if HasComment(IDLE, more) {
        CommentIn(IDLE, text, more, []);
        assert text + more + [] == text + more;
      } else {
        NoCommentAppend(IDLE, text, more);
      }
      assert OpensComments(ds) <==> HasComment(IDLE, ds[0].value) || OpensComments(ds[1..]);
    }
  }

  // ---------- reading a printed block

  lemma {:induction false} BraceAt(head: string, rest: string)
    requires '{' !in head
    ensures FindBrace(head + "{" + rest) == Ok(|head|)
  {
    if head == [] {
      assert (head + "{" + rest)[0] == '{';
    } else {
      assert (head + "{" + rest)[1..] == head[1..] + "{" + rest;
      BraceAt(head[1..], rest);
    }
  }

  lemma {:induction false} OnePart(s: string, c: char)
    requires c !in s
    ensures Split(s, c) == [s]
  {
    if s != [] {
      OnePart(s[1..], c);
      assert [s[0]] + s[1..] == s;
    }
  }

  lemma {:induction false} CollapseKeeps(s: string)
    requires Unspaced(s)
    ensures Collapse(s) == s
  {
    if s != [] {
      CollapseKeeps(s[1..]);
    }
  }

  predicate Unspaced(s: string) {
    forall i :: 0 <= i < |s| ==> !IsSpace(s[i])
  }

  /** A selector that is one plain word and has the mode whatever the theme's name is. */
  ghost predicate Selects(s: string, mode: Mode) {
    && s != [] && Unspaced(s) && ',' !in s && '{' !in s
    && forall id: string :: ModeOf(id, s) == Ok(mode)
  }

  lemma PlainSelectorIsItself(s: string)
    requires s != [] && Unspaced(s)
    ensures Trim(s + " ") == s && Normalize(s) == s
  {
    TrimUnpads([], s, " ");
    assert [] + s + " " == s + " ";
    TrimUnpads([], s, []);
    assert [] + s + [] == s;
    CollapseKeeps(s);
  }

  lemma SelectorHasItsMode(id: string, s: string, mode: Mode)
    requires Selects(s, mode)
    ensures Trim(s + " ") == s && Classify(id, s) == Ok(mode)
  {
    PlainSelectorIsItself(s);
    OnePart(s, ',');
  }

  lemma RootSelectorsSelect()
    ensures Selects(":root", Light) && Selects(":root.dark", Dark)
  {
  }

  lemma ScannersPassBody(ds: seq<Decl>, rest: string)
    requires GoodDecls(ds)
    ensures BlockEnd("\n" + DeclTexts(ds) + "}" + rest, IDLE, 0) == Ok(|DeclTexts(ds)| + 1)
  {
    var tail := "}" + rest;
    assert "\n" + DeclTexts(ds) + "}" + rest == "\n" + (DeclTexts(ds) + tail);
    InertPassed("\n", 0, DeclTexts(ds) + tail);
    ScannersPassDecls(ds, tail);
    assert BlockEnd(tail, IDLE, 0) == Ok(0);
  }

  lemma BlockTextEnds(s: string, mode: Mode, ds: seq<Decl>, rest: string)
    requires GoodDecls(ds) && Selects(s, mode)
    ensures BlockEnds(BlockLike(s, ds, rest)) == Ok((|s| + 1, |DeclTexts(ds)| + 1))
  {
    var head, body := s + " ", "\n" + DeclTexts(ds) + "}" + rest;
    var text := BlockLike(s, ds, rest);
    assert text == head + "{" + body;
    BraceAt(head, body);
    SelectorHasItsMode("", s, mode);
    assert text[..|head|] == head && text[|head| + 1..] == body;
    ScannersPassBody(ds, rest);
  }

  function BlockLike(s: string, ds: seq<Decl>, rest: string): string {
    s + " {" + ("\n" + DeclTexts(ds)) + "}" + rest
  }

  lemma BlockReadsBack(id: string, s: string, mode: Mode, ds: seq<Decl>, rest: string)
    requires GoodDecls(ds) && Selects(s, mode)
    ensures ParseBlock(id, BlockLike(s, ds, rest)) == Ok(Block(mode, ds, rest))
  {
    var head, inside := s + " ", "\n" + DeclTexts(ds);
    BlockTextEnds(s, mode, ds, rest);
    SelectorHasItsMode(id, s, mode);
    DeclTextsReadBack(ds);
    BlockLikeParts(s, ds, rest);
    BlockParts(BlockLike(s, ds, rest), head, inside, rest);
    BlockIsParsed(id, BlockLike(s, ds, rest), |head|, |inside|, mode, ds);
  }

  lemma BlockIsParsed(id: string, text: string, open: nat, n: nat, mode: Mode, ds: seq<Decl>)
    requires BlockEnds(text) == Ok((open, n))
    requires Classify(id, Trim(text[..open])) == Ok(mode) && Declarations(text[open + 1..][..n]) == Ok(ds)
    ensures ParseBlock(id, text) == Ok(Block(mode, ds, text[open + 1..][n + 1..]))
  {
  }

  lemma BlockLikeParts(s: string, ds: seq<Decl>, rest: string)
    ensures BlockLike(s, ds, rest) == (s + " ") + "{" + ("\n" + DeclTexts(ds)) + "}" + rest
    ensures |"\n" + DeclTexts(ds)| == |DeclTexts(ds)| + 1 && |s + " "| == |s| + 1
  {
  }

  lemma BlockParts(text: string, head: string, inside: string, rest: string)
    requires text == head + "{" + inside + "}" + rest
    ensures text[..|head|] == head
    ensures text[|head| + 1..][..|inside|] == inside && text[|head| + 1..][|inside| + 1..] == rest
  {
  }

  lemma BlocksStep(id: string, s: string, mode: Mode, ds: seq<Decl>, rest: string, theme: Theme)
    requires GoodDecls(ds) && Selects(s, mode)
    ensures ParseBlocks(id, "\n" + BlockText(s, ds) + rest, theme) ==
            if ds == [] then ParseBlocks(id, rest, theme)
            else if |theme.light| + |theme.dark| + |ds| > MAX_DECLS then Err
            else ParseBlocks(id, rest, AddTo(theme, mode, ds))
  {
    var text := BlockText(s, ds) + rest;
    assert "\n" + BlockText(s, ds) + rest == "\n" + text;
    SkipsNewline(id, text, theme);
    if ds == [] {
      assert text == rest;
    } else {
      Reassociates(s, DeclTexts(ds), rest);
      assert text[0] == s[0] && !IsSpace(s[0]);
      BlockReadsBack(id, s, mode, ds, "\n" + rest);
      SkipsNewline(id, rest, AddTo(theme, mode, ds));
    }
  }

  lemma Reassociates(s: string, texts: string, rest: string)
    ensures s + " {\n" + texts + "}\n" + rest == s + " {" + ("\n" + texts) + "}" + ("\n" + rest)
  {
  }

  lemma SkipsNewline(id: string, text: string, theme: Theme)
    ensures ParseBlocks(id, "\n" + text, theme) == ParseBlocks(id, text, theme)
  {
  }

  /** The printed text after its header comment. */
  function Printed(theme: Theme): string {
    "\n" + BlockText(":root", theme.light) + if theme.dark == [] then [] else "\n" + BlockText(":root.dark", theme.dark)
  }

  lemma PrintedReadsBack(id: string, theme: Theme)
    requires Good(theme)
    ensures ParseBlocks(id, Printed(theme), Theme([], [])) ==
            if |theme.light| + |theme.dark| > MAX_DECLS then Err else Ok(theme)
  {
    var behind := if theme.dark == [] then [] else "\n" + BlockText(":root.dark", theme.dark);
    var half := Theme(theme.light, []);
    RootSelectorsSelect();
    BlocksStep(id, ":root", Light, theme.light, behind, Theme([], []));
    BlocksStep(id, ":root.dark", Dark, theme.dark, [], half);
    assert "\n" + BlockText(":root.dark", theme.dark) + [] == "\n" + BlockText(":root.dark", theme.dark);
    assert [] + theme.light == theme.light && [] + theme.dark == theme.dark;
    assert AddTo(Theme([], []), Light, theme.light) == half && AddTo(half, Dark, theme.dark) == theme;
  }

  // ---------- a comment that is stripped is never put back

  function Stars(s: string): nat {
    if s == [] then 0 else (if s[0] == '*' then 1 else 0) + Stars(s[1..])
  }

  lemma {:induction false} StarsAppend(a: string, b: string)
    ensures Stars(a + b) == Stars(a) + Stars(b)
  {
    if a == [] {
      assert a + b == b;
    } else {
      assert (a + b)[1..] == a[1..] + b;
      StarsAppend(a[1..], b);
    }
  }

  lemma StarsCut(s: string, n: nat)
    requires n <= |s|
    ensures Stars(s) == Stars(s[..n]) + Stars(s[n..])
  {
    assert s == s[..n] + s[n..];
    StarsAppend(s[..n], s[n..]);
  }

  lemma {:induction false} StripDropsStars(s: Scan, text: string)
    requires Strip(s, text).Ok?
    ensures Stars(Strip(s, text).value) <= Stars(text)
    ensures HasComment(s, text) ==> Stars(Strip(s, text).value) < Stars(text)
    decreases |text|
  {
    if text != [] {
      if OpensComment(s, text) {
        var n := FindClose(text[2..]).value;
        StripDropsStars(s, text[n + 4..]);
        StarsCut(text, 2);
        StarsCut(text[2..], n + 2);
        assert text[2..][n + 2..] == text[n + 4..];
        assert text[..2] == ['/', '*'] && Stars(text[..2]) == Stars(text[..2][1..]) == 1;
      } else {
        StripDropsStars(Next(s, text[0]), text[1..]);
        var rest := Strip(Next(s, text[0]), text[1..]).value;
        assert ([text[0]] + rest)[1..] == rest;
      }
    }
  }

  lemma StarsTrim(s: string)
    ensures Stars(Trim(s)) <= Stars(s)
  {
    var left, right := TrimCuts(s);
    StarsAppend(left + Trim(s), right);
    StarsAppend(left, Trim(s));
  }

  /** The stars in the values of a list of declarations. */
  function ValueStars(ds: seq<Decl>): nat {
    if ds == [] then 0 else Stars(ds[0].value) + ValueStars(ds[1..])
  }

  lemma {:induction false} ValueStarsAppend(a: seq<Decl>, b: seq<Decl>)
    ensures ValueStars(a + b) == ValueStars(a) + ValueStars(b)
  {
    if a == [] {
      assert a + b == b;
    } else {
      assert (a + b)[1..] == a[1..] + b;
      ValueStarsAppend(a[1..], b);
    }
  }

  lemma {:induction false} SkipGapStars(text: string)
    ensures Stars(SkipGap(text)) <= Stars(text)
  {
    if text != [] && IsGap(text[0]) {
      SkipGapStars(text[1..]);
    }
  }

  lemma {:induction false} SkipBlankStars(text: string)
    ensures Stars(SkipBlank(text)) <= Stars(text)
  {
    if text != [] && IsBlank(text[0]) {
      SkipBlankStars(text[1..]);
    }
  }

  lemma DeclarationStars(text: string)
    requires Declaration(text).Ok?
    ensures Stars(Declaration(text).value.0.value) + Stars(Declaration(text).value.1) <= Stars(text)
  {
    var (n, k) := DeclEnds(text).value;
    var behind := text[n + 1..];
    StarsCut(text, n + 1);
    StarsCut(behind, k);
    StarsTrim(behind[..k]);
    if k < |behind| {
      StarsCut(behind[k..], 1);
      assert behind[k..][1..] == behind[k + 1..];
    }
  }

  lemma {:induction false} DeclarationsStars(body: string)
    requires Declarations(body).Ok?
    ensures ValueStars(Declarations(body).value) <= Stars(body)
    decreases |body|
  {
    var text := SkipGap(body);
    SkipGapStars(body);
    if text != [] {
      var (d, rest) := Declaration(text).value;
      DeclarationStars(text);
      DeclarationsStars(rest);
      assert ([d] + Declarations(rest).value)[1..] == Declarations(rest).value;
    }
  }

  lemma BlockStars(id: string, text: string)
    requires ParseBlock(id, text).Ok?
    ensures ValueStars(ParseBlock(id, text).value.decls) + Stars(ParseBlock(id, text).value.rest) <= Stars(text)
  {
    var (open, n) := BlockEnds(text).value;
    var behind := text[open + 1..];
    StarsCut(text, open + 1);
    StarsCut(behind, n);
    StarsCut(behind[n..], 1);
    assert behind[n..][1..] == behind[n + 1..];
    DeclarationsStars(behind[..n]);
  }

  lemma {:induction false} BlocksStars(id: string, text: string, theme: Theme)
    requires ParseBlocks(id, text, theme).Ok?
    ensures var r := ParseBlocks(id, text, theme).value;
            ValueStars(r.light) + ValueStars(r.dark) <= ValueStars(theme.light) + ValueStars(theme.dark) + Stars(text)
    decreases |text|
  {
    SkipBlankStars(text);
    var text := SkipBlank(text);
    if text != [] {
      var block := ParseBlock(id, text).value;
      BlockStars(id, text);
      ValueStarsAppend(if block.mode == Dark then theme.dark else theme.light, block.decls);
      BlocksStars(id, block.rest, AddTo(theme, block.mode, block.decls));
    }
  }

  lemma {:induction false} Starless(s: string)
    requires '*' !in s
    ensures Stars(s) == 0
  {
    if s != [] {
      Starless(s[1..]);
    }
  }

  lemma {:induction false} DeclTextsStars(ds: seq<Decl>)
    requires GoodDecls(ds)
    ensures Stars(DeclTexts(ds)) == ValueStars(ds)
  {
    if ds != [] {
      var d := ds[0];
      assert d in ds && GoodDecl(d);
      assert forall i :: 0 <= i < |d.name| ==> IsNameChar(d.name[i]) && d.name[i] != '*';
      Starless(Head(d));
      Starless(";\n");
      StarsAppend(Head(d), d.value);
      StarsAppend(Head(d) + d.value, ";\n");
      StarsAppend(DeclText(d), DeclTexts(ds[1..]));
      DeclTextsStars(ds[1..]);
    }
  }

  lemma BlockTextStars(s: string, ds: seq<Decl>)
    requires GoodDecls(ds) && '*' !in s
    ensures Stars(BlockText(s, ds)) == ValueStars(ds)
  {
    if ds != [] {
      DeclTextsStars(ds);
      Starless(s + " {\n");
      Starless("}\n");
      StarsAppend(s + " {\n", DeclTexts(ds));
      StarsAppend(s + " {\n" + DeclTexts(ds), "}\n");
    }
  }

  lemma PrintedStars(theme: Theme)
    requires Good(theme)
    ensures Stars(Printed(theme)) == ValueStars(theme.light) + ValueStars(theme.dark)
  {
    var light, dark := BlockText(":root", theme.light), BlockText(":root.dark", theme.dark);
    var behind := if theme.dark == [] then [] else "\n" + dark;
    Starless(":root");
    BlockTextStars(":root", theme.light);
    BlockTextStars(":root.dark", theme.dark);
    Starless("\n");
    StarsAppend("\n", light);
    StarsAppend("\n", dark);
    StarsAppend("\n" + light, behind);
  }

  // ---------- the theorem

  lemma BlockTextScans(s: string, ds: seq<Decl>)
    requires GoodDecls(ds) && Inert(s)
    ensures After(IDLE, BlockText(s, ds)) == IDLE
    ensures HasComment(IDLE, BlockText(s, ds)) <==> OpensComments(ds)
  {
    if ds != [] {
      var head, texts, tail := s + " {\n", DeclTexts(ds), "}\n";
      ScansDecls(ds);
      QuietScans(head);
      QuietScans(tail);
      AfterAppend(IDLE, head, texts);
      AfterAppend(IDLE, head + texts, tail);
      if OpensComments(ds) {
        CommentIn(IDLE, head, texts, tail);
      } else {
        NoCommentAppend(IDLE, head, texts);
        NoCommentAppend(IDLE, head + texts, tail);
      }
    }
  }

  /** Text with no mark of a string, an escape or a comment. */
  predicate Quiet(text: string) {
    forall i :: 0 <= i < |text| ==> text[i] !in {'\\', '\'', '"', '/'}
  }

  lemma {:induction false} QuietScans(text: string)
    requires Quiet(text)
    ensures After(IDLE, text) == IDLE && !HasComment(IDLE, text)
  {
    if text != [] {
      QuietScans(text[1..]);
    }
  }

  lemma PrintedScans(theme: Theme)
    requires Good(theme)
    ensures After(IDLE, Printed(theme)) == IDLE
    ensures HasComment(IDLE, Printed(theme)) <==> OpensComments(theme.light) || OpensComments(theme.dark)
  {
    var light, dark := BlockText(":root", theme.light), BlockText(":root.dark", theme.dark);
    var behind := if theme.dark == [] then [] else "\n" + dark;
    BlockTextScans(":root", theme.light);
    BlockTextScans(":root.dark", theme.dark);
    JoinScans("\n", light);
    JoinScans("\n", dark);
    JoinScans("\n" + light, behind);
  }

  lemma JoinScans(a: string, b: string)
    requires After(IDLE, a) == IDLE && After(IDLE, b) == IDLE && (b != [] ==> b[0] != '*')
    ensures After(IDLE, a + b) == IDLE
    ensures HasComment(IDLE, a + b) <==> HasComment(IDLE, a) || HasComment(IDLE, b)
  {
    AfterAppend(IDLE, a, b);
    if HasComment(IDLE, a) {
      CommentIn(IDLE, [], a, b);
      assert [] + a + b == a + b;
    } else if HasComment(IDLE, b) {
      CommentIn(IDLE, a, b, []);
      assert a + b + [] == a + b;
    } else {
      NoCommentAppend(IDLE, a, b);
    }
  }

  lemma HeaderIsStripped(rest: string)
    ensures Strip(IDLE, "/* active theme */" + rest) == Strip(IDLE, rest)
  {
    var inside := " active theme ";
    assert "/* active theme */" == "/*" + inside + "*/";
    CommentIsStripped("/*", inside, "*/", rest);
  }

  lemma CommentIsStripped(open: string, inside: string, close: string, rest: string)
    requires open == "/*" && close == "*/" && '*' !in inside
    ensures Strip(IDLE, open + inside + close + rest) == Strip(IDLE, rest)
  {
    var text := open + inside + close + rest;
    CloseAt(inside, rest);
    assert text[2..] == inside + close + rest;
    assert |open| == |close| == 2;
    assert text[|inside| + 4..] == rest;
    assert text[0] == open[0] == '/' && text[1] == open[1] == '*';
  }

  lemma {:induction false} CloseAt(inside: string, rest: string)
    requires '*' !in inside
    ensures FindClose(inside + "*/" + rest) == Ok(|inside|)
  {
    if inside != [] {
      assert (inside + "*/" + rest)[1..] == inside[1..] + "*/" + rest;
      CloseAt(inside[1..], rest);
    }
  }

  lemma RenderIsHeaderAndPrinted(theme: Theme)
    ensures Render(theme) == "/* active theme */" + Printed(theme)
  {
    var dark := if theme.dark == [] then [] else "\n" + BlockText(":root.dark", theme.dark);
    assert HEADER == "/* active theme */" + "\n";
    Reassociate("/* active theme */", "\n", BlockText(":root", theme.light), dark);
  }

  lemma Reassociate(a: string, b: string, c: string, d: string)
    ensures a + b + c + d == a + (b + c + d) == a + (b + (c + d))
    ensures a + b + c == a + (b + c)
  {
  }

  lemma ParseOfPrinted(id: string, theme: Theme)
    ensures Parse(id, Render(theme)) ==
            if Bytes(Render(theme)) > MAX_BYTES then Err else
            match Strip(IDLE, Printed(theme))
            case Err => Err
            case Ok(cleaned) =>
              if Trim(cleaned) == [] then Ok(Theme([], [])) else ParseBlocks(id, cleaned, Theme([], []))
  {
    RenderIsHeaderAndPrinted(theme);
    HeaderIsStripped(Printed(theme));
  }

  lemma CommentFreeReadsBack(id: string, theme: Theme)
    requires Good(theme) && !HasComment(IDLE, Printed(theme))
    ensures Parse(id, Render(theme)) ==
            if Bytes(Render(theme)) > MAX_BYTES || |theme.light| + |theme.dark| > MAX_DECLS then Err else Ok(theme)
  {
    ParseOfPrinted(id, theme);
    StripCopies(IDLE, Printed(theme), []);
    PrintedScans(theme);
    assert Printed(theme) + [] == Printed(theme);
    PrintedReadsBack(id, theme);
    PrintedBlankMeansEmpty(theme);
  }

  /** A theme in the parser's form is read back exactly when it fits and opens no comment. */
  lemma RoundTrip(id: string, theme: Theme)
    requires Good(theme)
    ensures Parse(id, Render(theme)) == Ok(theme) <==>
            && Bytes(Render(theme)) <= MAX_BYTES
            && |theme.light| + |theme.dark| <= MAX_DECLS
            && !OpensComments(theme.light) && !OpensComments(theme.dark)
  {
    PrintedScans(theme);
    if HasComment(IDLE, Printed(theme)) {
      ParseOfPrinted(id, theme);
      CommentIsLost(id, theme);
    } else {
      CommentFreeReadsBack(id, theme);
    }
  }

  lemma CommentIsLost(id: string, theme: Theme)
    requires Good(theme) && HasComment(IDLE, Printed(theme))
    ensures Strip(IDLE, Printed(theme)).Ok? ==>
              ParseBlocks(id, Strip(IDLE, Printed(theme)).value, Theme([], [])) != Ok(theme)
    ensures theme != Theme([], [])
  {
    PrintedScans(theme);
    PrintedStars(theme);
    var stripped := Strip(IDLE, Printed(theme));
    if stripped.Ok? {
      StripDropsStars(IDLE, Printed(theme));
      if ParseBlocks(id, stripped.value, Theme([], [])).Ok? {
        BlocksStars(id, stripped.value, Theme([], []));
      }
    }
  }

  lemma BlankIsAllSpace(s: string)
    ensures Trim(s) == [] ==> AllSpace(s)
  {
    var left, right := TrimCuts(s);
    if Trim(s) == [] {
      forall i | 0 <= i < |s| ensures IsSpace(s[i]) {
        assert s[i] == (left + right)[i];
      }
    }
  }

  lemma PrintedBlankMeansEmpty(theme: Theme)
    ensures theme != Theme([], []) ==> Trim(Printed(theme)) != []
  {
    var printed := Printed(theme);
    BlankIsAllSpace(printed);
    if theme.light != [] {
      assert printed[1] == ':';
    } else if theme.dark != [] {
      assert printed == "\n" + [] + ("\n" + BlockText(":root.dark", theme.dark));
      assert printed[2] == ':';
    }
  }

  /**
   Normalising a theme file: whatever a file parses to, its printed form parses to
   the same, unless the file wrote a comment mark across a comment or the printed
   form has outgrown the size limit.
   */
  lemma PrintedFormIsFixed(id: string, raw: string)
    requires Parse(id, raw).Ok?
    ensures var theme := Parse(id, raw).value;
            Parse(id, Render(theme)) == Ok(theme) <==>
            Bytes(Render(theme)) <= MAX_BYTES && !OpensComments(theme.light) && !OpensComments(theme.dark)
  {
    ParsedIsGood(id, raw);
    RoundTrip(id, Parse(id, raw).value);
  }

  /** A slash and a star on either side of a comment. */
  lemma BrokenDeclIsGood()
    ensures GoodDecl(Decl("--a", "/*")) && HasComment(IDLE, "/*")
  {
  }

  lemma CommentVanishes(before: string, behind: string)
    requires !HasComment(IDLE, before) && After(IDLE, before) == IDLE
    requires !HasComment(IDLE, behind)
    ensures Strip(IDLE, before + ("/**/" + behind)) == Ok(before + behind)
  {
    var text := "/**/" + behind;
    StripCopies(IDLE, before, text);
    assert text[2..] == "*/" + behind && text[4..] == behind;
    assert FindClose(text[2..]) == Ok(0);
    StripCopies(IDLE, behind, []);
    assert behind + [] == behind;
  }

  const BROKEN := Decl("--a", "/*")

  const OPEN := ":root {\n  --a: "

  const TAIL := "*;\n}"

  const BROKEN_FILE := OPEN + "/" + ("/**/" + TAIL)

  lemma SlashesJoin(open: string, tail: string)
    requires Quiet(open) && Quiet(tail)
    ensures Strip(IDLE, open + "/" + ("/**/" + tail)) == Ok(open + "/" + tail)
  {
    QuietScans(open);
    QuietScans(tail);
    assert "/"[1..] == [];
    JoinScans(open, "/");
    CommentVanishes(open + "/", tail);
  }

  lemma StrippedIsBlock()
    ensures OPEN + "/" + TAIL == BlockLike(":root", [BROKEN], [])
  {
    assert [BROKEN][1..] == [];
    assert DeclTexts([BROKEN]) == DeclText(BROKEN) == "  --a: /*;\n";
    assert "\n" + "  --a: /*;\n" == "\n  --a: /*;\n";
  }

  lemma OneBlockParses(id: string, raw: string, s: string, mode: Mode, ds: seq<Decl>)
    requires Bytes(raw) <= MAX_BYTES && Strip(IDLE, raw) == Ok(BlockLike(s, ds, []))
    requires Selects(s, mode) && GoodDecls(ds) && |ds| <= MAX_DECLS
    ensures Parse(id, raw) == Ok(AddTo(Theme([], []), mode, ds))
  {
    var cleaned := BlockLike(s, ds, []);
    BlockReadsBack(id, s, mode, ds, []);
    assert cleaned[0] == s[0] && !IsSpace(s[0]);
    BlankIsAllSpace(cleaned);
    assert ParseBlocks(id, [], AddTo(Theme([], []), mode, ds)) == Ok(AddTo(Theme([], []), mode, ds));
  }

  lemma BrokenFileParses(id: string)
    ensures Parse(id, BROKEN_FILE) == Ok(Theme([BROKEN], []))
  {
    SlashesJoin(OPEN, TAIL);
    StrippedIsBlock();
    BrokenDeclIsGood();
    RootSelectorsSelect();
    FitsEasily(BROKEN_FILE);
    OneBlockParses(id, BROKEN_FILE, ":root", Light, [BROKEN]);
    assert AddTo(Theme([], []), Light, [BROKEN]) == Theme([BROKEN], []);
  }

  /** The printed form of such a file is not read back. */
  lemma CommentMarkAcrossComment(id: string)
    ensures Parse(id, BROKEN_FILE).Ok?
    ensures var theme := Parse(id, BROKEN_FILE).value;
            Parse(id, Render(theme)) != Ok(theme)
  {
    var theme := Theme([BROKEN], []);
    BrokenFileParses(id);
    BrokenDeclIsGood();
    assert BROKEN in theme.light;
    RoundTrip(id, theme);
  }

  lemma {:induction false} FitsEasily(s: string)
    ensures Bytes(s) <= 4 * |s|
  {
    if s != [] {
      FitsEasily(s[1..]);
    }
  }
}
