/** Parsing a theme's custom properties and printing them as the active style sheet. */
module ThemeCss {
  import opened Wrappers
  import opened Text
  import opened CssScan
  import opened CssValue

  const MAX_BYTES := 1048576
  const MAX_DECLS := 1024
  const MAX_VALUE := 4096
  const MAX_NAME := 128

  datatype Decl = Decl(name: string, value: string)

  datatype Theme = Theme(light: seq<Decl>, dark: seq<Decl>)

  datatype Mode = Light | Dark

  // ---------- declarations

  predicate IsGap(c: char) {
    c in {' ', '\n', '\r', '\t', '\U{C}', ';'}
  }

  function SkipGap(text: string): (r: string)
    ensures |r| <= |text|
  {
    if text != [] && IsGap(text[0]) then SkipGap(text[1..]) else text
  }

  /** The index of the colon that ends the name; a brace before it is an error. */
  function NameEnd(text: string): (r: Result<nat>)
    ensures r.Ok? ==> r.value < |text| && text[r.value] == ':'
  {
    if text == [] || text[0] == '{' || text[0] == '}' then Err
    else if text[0] == ':' then Ok(0)
    else Shift(1, NameEnd(text[1..]))
  }

  predicate IsNameChar(c: char) {
    'a' <= c <= 'z' || '0' <= c <= '9' || c == '-'
  }

  predicate ValidName(name: string) {
    && 3 <= |name| <= MAX_NAME && name[0] == '-' && name[1] == '-' && name[2] != '-'
    && forall i :: 0 <= i < |name| ==> IsNameChar(name[i])
  }

  predicate ValidDecl(d: Decl) {
    ValidName(d.name) && d.value != [] && |d.value| <= MAX_VALUE && ValidValue(d.value)
  }

  /** The declaration in the text, given where its name and its value end. */
  function DeclAt(text: string, n: nat, k: nat): Decl
    requires n < |text| && k <= |text| - n - 1
  {
    Decl(Trim(text[..n]), Trim(text[n + 1..][..k]))
  }

  /** Where the text's first declaration ends: its name, and then its value. */
  function DeclEnds(text: string): (r: Result<(nat, nat)>)
    ensures r.Ok? ==> r.value.0 < |text| && r.value.1 <= |text| - r.value.0 - 1
  {
    if text == [] || text[0] == '@' then Err else
    match NameEnd(text)
    case Err => Err
    case Ok(n) =>
      match ValueEnd(text[n + 1..], IDLE, [])
      case Err => Err
      case Ok(k) => Ok((n, k))
  }

  /** One declaration and the text after it, or an error. */
  function Declaration(text: string): (r: Result<(Decl, string)>)
    ensures r.Ok? ==> |r.value.1| < |text|
  {
    match DeclEnds(text)
    case Err => Err
    case Ok((n, k)) =>
      if !ValidDecl(DeclAt(text, n, k)) then Err
      else Ok((DeclAt(text, n, k), if k < |text| - n - 1 then text[n + 1..][k + 1..] else []))
  }

  function Declarations(body: string): Result<seq<Decl>>
    decreases |body|
  {
    var text := SkipGap(body);
    if text == [] then Ok([]) else
    match Declaration(text)
    case Err => Err
    case Ok((d, rest)) =>
      Appended([d], Declarations(rest))
  }

  function Appended(ds: seq<Decl>, r: Result<seq<Decl>>): Result<seq<Decl>> {
    match r
    case Err => Err
    case Ok(more) => Ok(ds + more)
  }

  method FindNameEnd(body: string, start: nat) returns (r: Result<nat>)
    requires start <= |body|
    ensures r == Shift(start, NameEnd(body[start..]))
  {
    var i := start;
    while i < |body| && body[i] != ':'
      invariant start <= i <= |body|
      invariant Shift(start, NameEnd(body[start..])) == Shift(i, NameEnd(body[i..]))
    {
      if body[i] == '{' || body[i] == '}' {
        return Err;
      }
      NameEndStep(body, i);
      i := i + 1;
    }
    return if i >= |body| then Err else Ok(i);
  }

  lemma NameEndStep(body: string, i: nat)
    requires i < |body| && body[i] !in {'{', '}', ':'}
    ensures Shift(i, NameEnd(body[i..])) == Shift(i + 1, NameEnd(body[i + 1..]))
  {
    assert body[i..][1..] == body[i + 1..];
  }

  method ValidateDecl(d: Decl) returns (ok: bool)
    ensures ok == ValidDecl(d)
  {
    if !ValidName(d.name) || d.value == [] || |d.value| > MAX_VALUE {
      return false;
    }
    ok := ValidateThemeValue(d.value);
  }

  method FindDeclEnds(body: string, nameStart: nat) returns (r: Result<(nat, nat)>)
    requires nameStart < |body|
    ensures r == DeclEnds(body[nameStart..])
  {
    if body[nameStart] == '@' {
      return Err;
    }
    var colon := FindNameEnd(body, nameStart);
    if colon.Err? {
      return Err;
    }
    var valueStart := colon.value + 1;
    var end := FindValueEnd(body, valueStart);
    assert body[nameStart..][colon.value - nameStart + 1..] == body[valueStart..];
    return if end.Err? then Err else Ok((colon.value - nameStart, end.value - valueStart));
  }

  /** The declaration at the given index and the index after it. */
  method ParseDeclaration(body: string, nameStart: nat) returns (r: Result<(Decl, nat)>)
    requires nameStart < |body|
    ensures var read := Declaration(body[nameStart..]);
            && (read.Err? ==> r == Err)
            && (read.Ok? ==> r.Ok? && nameStart < r.value.1 <= |body| && read.value == (r.value.0, body[r.value.1..]))
  {
    var ends := FindDeclEnds(body, nameStart);
    if ends.Err? {
      return Err;
    }
    var (n, k) := ends.value;
    var i := nameStart + n + 1 + k;
    DeclarationOf(body[nameStart..], n, k);
    var decl := DeclBetween(body, nameStart, n, k);
    if decl.Err? {
      return Err;
    }
    RestAfter(body, nameStart, n, k, i);
    if i < |body| {
      i := i + 1;
    }
    return Ok((decl.value, i));
  }

  /** The declaration between the given ends, if it is valid. */
  method DeclBetween(body: string, nameStart: nat, n: nat, k: nat) returns (r: Result<Decl>)
    requires nameStart + n + 1 + k <= |body|
    ensures r == Checked(DeclAt(body[nameStart..], n, k))
  {
    var colon := nameStart + n;
    var i := colon + 1 + k;
    assert body[nameStart..][..n] == body[nameStart..colon];
    assert body[nameStart..][n + 1..][..k] == body[colon + 1..i];
    var decl := Decl(Trim(body[nameStart..colon]), Trim(body[colon + 1..i]));
    var valid := ValidateDecl(decl);
    return if valid then Ok(decl) else Err;
  }

  function Checked(d: Decl): Result<Decl> {
    if ValidDecl(d) then Ok(d) else Err
  }

  lemma DeclarationOf(text: string, n: nat, k: nat)
    requires DeclEnds(text) == Ok((n, k))
    ensures Declaration(text) ==
            match Checked(DeclAt(text, n, k))
            case Err => Err
            case Ok(d) => Ok((d, if k < |text| - n - 1 then text[n + 1..][k + 1..] else []))
  {
  }

  lemma RestAfter(body: string, start: nat, n: nat, k: nat, end: nat)
    requires end == start + n + 1 + k && end <= |body|
    ensures end < |body| ==> k < |body[start..]| - n - 1 && body[start..][n + 1..][k + 1..] == body[end + 1..]
    ensures end == |body| ==> k == |body[start..]| - n - 1 && body[end..] == []
  {
  }

  method ParseDeclarations(body: string) returns (r: Result<seq<Decl>>)
    ensures r == Declarations(body)
  {
    var decls: seq<Decl> := [];
    var i := 0;
    AppendedEmpty(Declarations(body));
    assert body[0..] == body;
    while i < |body|
      invariant 0 <= i <= |body|
      invariant Declarations(body) == Appended(decls, Declarations(body[i..]))
      decreases |body| - i
    {
      ghost var start := i;
      i := SkipDeclarationWhitespace(body, i);
      if i >= |body| {
        assert Declarations(body[start..]) == Ok([]);
        assert Declarations(body[i..]) == Ok([]);
        break;
      }
      var one := ParseDeclaration(body, i);
      if one.Err? {
        return Err;
      }
      AppendedStep(decls, one.value.0, Declarations(body[one.value.1..]));
      assert Declarations(body[start..]) == Appended([one.value.0], Declarations(body[one.value.1..]));
      decls := decls + [one.value.0];
      i := one.value.1;
    }
    assert decls + [] == decls;
    return Ok(decls);
  }

  lemma AppendedEmpty(r: Result<seq<Decl>>)
    ensures Appended([], r) == r
  {
    if r.Ok? {
      assert [] + r.value == r.value;
    }
  }

  lemma AppendedStep(ds: seq<Decl>, d: Decl, r: Result<seq<Decl>>)
    ensures Appended(ds, Appended([d], r)) == Appended(ds + [d], r)
  {
    if r.Ok? {
      assert ds + ([d] + r.value) == ds + [d] + r.value;
    }
  }

  method SkipDeclarationWhitespace(input: string, start: nat) returns (i: nat)
    requires start <= |input|
    ensures start <= i <= |input| && input[i..] == SkipGap(input[start..])
  {
    i := start;
    while i < |input| && IsGap(input[i])
      invariant start <= i <= |input| && SkipGap(input[start..]) == SkipGap(input[i..])
    {
      assert input[i..][1..] == input[i + 1..];
      i := i + 1;
    }
  }

  // ---------- selectors

  /** Runs of white space become one space; the text is already trimmed. */
  function Collapse(s: string): string {
    if s == [] then []
    else if !IsSpace(s[0]) then [s[0]] + Collapse(s[1..])
    else if |s| > 1 && IsSpace(s[1]) then Collapse(s[1..])
    else " " + Collapse(s[1..])
  }

  function Normalize(part: string): string {
    Collapse(Trim(part))
  }

  function ModeOf(id: string, part: string): Result<Mode> {
    if part == ":root" || part == ":root[data-theme='" + id + "']"
      || part == ":root[data-theme=\"" + id + "\"]" then Ok(Light)
    else if part == ":root.dark" || part == ":root.dark[data-theme='" + id + "']"
      || part == ":root.dark[data-theme=\"" + id + "\"]" then Ok(Dark)
    else Err
  }

  function Split(s: string, c: char): (parts: seq<string>)
    ensures |parts| > 0
  {
    if s == [] then [[]] else
    var rest := Split(s[1..], c);
    if s[0] == c then [[]] + rest else [[s[0]] + rest[0]] + rest[1..]
  }

  /** The one mode every selector of the list has. */
  function Classify(id: string, selector: string): Result<Mode> {
    var parts := Split(selector, ',');
    var mode := ModeOf(id, Normalize(parts[0]));
    if forall i :: 0 <= i < |parts| ==> ModeOf(id, Normalize(parts[i])) == mode then mode else Err
  }

  method ClassifySelectorList(id: string, selector: string) returns (r: Result<Mode>)
    ensures r == Classify(id, selector)
  {
    var parts := Split(selector, ',');
    r := Err;
    for i := 0 to |parts|
      invariant i > 0 ==> r.Ok? && forall j :: 0 <= j < i ==> ModeOf(id, Normalize(parts[j])) == r
    {
      var mode := ModeOf(id, Normalize(parts[i]));
      if mode.Err? || (i > 0 && mode != r) {
        return Err;
      }
      r := mode;
    }
  }

  // ---------- the style sheet

  predicate IsBlank(c: char) {
    c in {' ', '\n', '\r', '\t', '\U{C}'}
  }

  function SkipBlank(text: string): (r: string)
    ensures |r| <= |text|
  {
    if text != [] && IsBlank(text[0]) then SkipBlank(text[1..]) else text
  }

  function FindBrace(text: string): (r: Result<nat>)
    ensures r.Ok? ==> r.value < |text|
  {
    if text == [] then Err else if text[0] == '{' then Ok(0) else Shift(1, FindBrace(text[1..]))
  }

  datatype Block = Block(mode: Mode, decls: seq<Decl>, rest: string)

  /** Where the text's first block opens, after a selector, and how long its body is. */
  function BlockEnds(text: string): (r: Result<(nat, nat)>)
    ensures r.Ok? ==> r.value.0 + r.value.1 + 1 < |text|
  {
    match FindBrace(text)
    case Err => Err
    case Ok(open) =>
      if Trim(text[..open]) == [] then Err else
      match BlockEnd(text[open + 1..], IDLE, 0)
      case Err => Err
      case Ok(n) => Ok((open, n))
  }

  /** One selector block and the text after it. */
  function ParseBlock(id: string, text: string): (r: Result<Block>)
    ensures r.Ok? ==> |r.value.rest| < |text|
  {
    match BlockEnds(text)
    case Err => Err
    case Ok((open, n)) =>
      match Classify(id, Trim(text[..open]))
      case Err => Err
      case Ok(mode) =>
        match Declarations(text[open + 1..][..n])
        case Err => Err
        case Ok(ds) => Ok(Block(mode, ds, text[open + 1..][n + 1..]))
  }

  function AddTo(theme: Theme, mode: Mode, ds: seq<Decl>): Theme {
    if mode == Dark then theme.(dark := theme.dark + ds) else theme.(light := theme.light + ds)
  }

  function ParseBlocks(id: string, text: string, theme: Theme): Result<Theme>
    decreases |text|
  {
    var text := SkipBlank(text);
    if text == [] then Ok(theme) else
    match ParseBlock(id, text)
    case Err => Err
    case Ok(block) =>
      var next := AddTo(theme, block.mode, block.decls);
      if |next.light| + |next.dark| > MAX_DECLS then Err else ParseBlocks(id, block.rest, next)
  }

  function Parse(id: string, raw: string): Result<Theme> {
    if Bytes(raw) > MAX_BYTES then Err else
    match Strip(IDLE, raw)
    case Err => Err
    case Ok(cleaned) => if Trim(cleaned) == [] then Ok(Theme([], [])) else ParseBlocks(id, cleaned, Theme([], []))
  }

  method FindBlockEnds(cleaned: string, start: nat) returns (r: Result<(nat, nat)>)
    requires start <= |cleaned|
    ensures r == BlockEnds(cleaned[start..])
  {
    var found := FindBrace(cleaned[start..]);
    if found.Err? {
      return Err;
    }
    var open := start + found.value;
    assert cleaned[start..][..found.value] == cleaned[start..open];
    assert cleaned[start..][found.value + 1..] == cleaned[open + 1..];
    if Trim(cleaned[start..open]) == [] {
      return Err;
    }
    var close := FindBlockEnd(cleaned, open + 1);
    return if close.Err? then Err else Ok((found.value, close.value - open - 1));
  }

  /** The block at the given index: its mode, its declarations, and the index after it. */
  method ParseBlockAt(id: string, cleaned: string, start: nat) returns (r: Result<(Mode, seq<Decl>, nat)>)
    requires start <= |cleaned|
    ensures match ParseBlock(id, cleaned[start..])
            case Err => r == Err
            case Ok(block) => r.Ok? && r.value.0 == block.mode && r.value.1 == block.decls
                              && start < r.value.2 <= |cleaned| && block.rest == cleaned[r.value.2..]
  {
    var ends := FindBlockEnds(cleaned, start);
    if ends.Err? {
      return Err;
    }
    var open := start + ends.value.0;
    var close := open + 1 + ends.value.1;
    ghost var body := cleaned[start..][ends.value.0 + 1..];
    assert cleaned[start..][..ends.value.0] == cleaned[start..open];
    assert body == cleaned[open + 1..];
    assert body[..ends.value.1] == cleaned[open + 1..close];
    assert body[ends.value.1 + 1..] == cleaned[close + 1..];
    var mode := ClassifySelectorList(id, Trim(cleaned[start..open]));
    if mode.Err? {
      return Err;
    }
    var decls := ParseDeclarations(cleaned[open + 1..close]);
    if decls.Err? {
      return Err;
    }
    return Ok((mode.value, decls.value, close + 1));
  }

  method ParseThemeCSS(id: string, raw: string) returns (r: Result<Theme>)
    ensures r == Parse(id, raw)
  {
    if Bytes(raw) > MAX_BYTES {
      return Err;
    }
    var stripped := StripCSSComments(raw);
    if stripped.Err? {
      return Err;
    }
    var cleaned := stripped.value;
    if Trim(cleaned) == [] {
      return Ok(Theme([], []));
    }
    var out := Theme([], []);
    var i := 0;
    assert cleaned[0..] == cleaned;
    while i < |cleaned|
      invariant 0 <= i <= |cleaned|
      invariant ParseBlocks(id, cleaned, Theme([], [])) == ParseBlocks(id, cleaned[i..], out)
    {
      i := SkipWhitespace(cleaned, i);
      if i >= |cleaned| {
        break;
      }
      var block := ParseBlockAt(id, cleaned, i);
      if block.Err? {
        return Err;
      }
      out := AddTo(out, block.value.0, block.value.1);
      if |out.light| + |out.dark| > MAX_DECLS {
        return Err;
      }
      i := block.value.2;
    }
    return Ok(out);
  }

  method SkipWhitespace(input: string, start: nat) returns (i: nat)
    requires start <= |input|
    ensures start <= i <= |input| && input[i..] == SkipBlank(input[start..])
  {
    i := start;
    while i < |input| && IsBlank(input[i])
      invariant start <= i <= |input| && SkipBlank(input[start..]) == SkipBlank(input[i..])
    {
      assert input[i..][1..] == input[i + 1..];
      i := i + 1;
    }
  }

  // ---------- printing

  const HEADER := "/* active theme */\n"

  function DeclText(d: Decl): string {
    "  " + d.name + ": " + d.value + ";\n"
  }

  function DeclTexts(ds: seq<Decl>): string {
    if ds == [] then [] else DeclText(ds[0]) + DeclTexts(ds[1..])
  }

  function BlockText(selector: string, ds: seq<Decl>): string {
    if ds == [] then [] else selector + " {\n" + DeclTexts(ds) + "}\n"
  }

  function Render(theme: Theme): string {
    HEADER + BlockText(":root", theme.light)
    + if theme.dark == [] then [] else "\n" + BlockText(":root.dark", theme.dark)
  }

  method WriteThemeBlock(buf: string, selector: string, decls: seq<Decl>) returns (out: string)
    ensures out == buf + BlockText(selector, decls)
  {
    out := buf;
    if |decls| == 0 {
      return;
    }
    out := out + selector + " {\n";
    ghost var head := out;
    assert decls[0..] == decls;
    for i := 0 to |decls|
      invariant out + DeclTexts(decls[i..]) == head + DeclTexts(decls)
    {
      assert decls[i..][0] == decls[i] && decls[i..][1..] == decls[i + 1..];
      ghost var more := DeclTexts(decls[i + 1..]);
      assert out + (DeclText(decls[i]) + more) == out + "  " + decls[i].name + ": " + decls[i].value + ";\n" + more;
      out := out + "  " + decls[i].name + ": " + decls[i].value + ";\n";
    }
    assert out == head + DeclTexts(decls);
    out := out + "}\n";
  }

  method RenderThemeCSS(theme: Theme) returns (css: string)
    ensures css == Render(theme)
  {
    css := WriteThemeBlock(HEADER, ":root", theme.light);
    if |theme.dark| > 0 {
      css := WriteThemeBlock(css + "\n", ":root.dark", theme.dark);
    }
  }
}
