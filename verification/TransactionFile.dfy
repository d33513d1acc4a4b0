/**
 The transaction file: key=value lines that recovery reads back after a crash.
 Cleaning a path and parsing a time stamp are the Go library's; they are
 parameters here.
 */
module TransactionFile {
  import opened Wrappers
  import opened Text

  /** The scanner refuses a line that does not fit its buffer together with the newline. */
  const MAX_LINE_BYTES := 65535

  datatype Library = Library(clean: string -> string, validTime: string -> bool)

  datatype Transaction = Transaction(
    formatVersion: int,
    jobID: string,
    phase: string,
    previousTarget: string,
    candidateTarget: string,
    candidateDir: string,
    tempRoot: string,
    backupDir: string,
    legacy: bool,
    serviceManager: string,
    serviceWasActive: bool,
    migrationStarted: bool,
    createdAt: string)

  const PHASES := {
    "queued", "locked", "download", "validate", "prepared", "stopping",
    "switching", "migrating", "starting", "cleanup", "done" }

  const KEYS := [
    "format_version", "job_id", "phase", "previous_target", "candidate_target",
    "candidate_dir", "temp_root", "backup_dir", "legacy", "service_manager",
    "service_was_active", "migration_started", "created_at" ]

  // ---------- writing

  function Sanitize(s: string): (r: string)
    ensures |r| == |s| && '\n' !in r && '\r' !in r
    ensures forall i :: 0 <= i < |s| ==> r[i] == if s[i] in {'\n', '\r'} then ' ' else s[i]
  {
    if s == [] then [] else [if s[0] in {'\n', '\r'} then ' ' else s[0]] + Sanitize(s[1..])
  }

  function Line(key: string, value: string): string {
    key + "=" + Sanitize(value)
  }

  function Render(keys: seq<string>, values: seq<string>): string
    requires |keys| == |values|
  {
    if keys == [] then [] else Line(keys[0], values[0]) + "\n" + Render(keys[1..], values[1..])
  }

  function Bool(b: bool): string {
    if b then "true" else "false"
  }

  predicate ValidJobID(id: string) {
    var id := Trim(id);
    && 0 < |id| <= 128
    && forall i :: 0 <= i < |id| ==> 'a' <= id[i] <= 'z' || 'A' <= id[i] <= 'Z' || '0' <= id[i] <= '9' || id[i] == '-'
  }

  function Values(t: Transaction): seq<string> {
    [ "1", t.jobID, t.phase, t.previousTarget, t.candidateTarget,
      t.candidateDir, t.tempRoot, t.backupDir, Bool(t.legacy), t.serviceManager,
      Bool(t.serviceWasActive), Bool(t.migrationStarted), t.createdAt ]
  }

  function Data(t: Transaction): Result<string> {
    if t.formatVersion !in {0, 1} || !ValidJobID(t.jobID) then Err else Ok(Render(KEYS, Values(t)))
  }

  // ---------- reading

  /** The index of the first c, or the length when there is none. */
  function Find(s: string, c: char): (n: nat)
    ensures n <= |s| && (n < |s| ==> s[n] == c)
    ensures forall i :: 0 <= i < n ==> s[i] != c
  {
    if s == [] || s[0] == c then 0 else 1 + Find(s[1..], c)
  }

  function Lines(s: string): seq<string> {
    if s == [] then [] else
    var n := Find(s, '\n');
    [s[..n]] + (if n == |s| then [] else Lines(s[n + 1..]))
  }

  function DropReturn(line: string): string {
    if line != [] && line[|line| - 1] == '\r' then line[..|line| - 1] else line
  }

  /** One line's effect on the fields read so far; blank lines and comments have none. */
  function ReadLine(raw: string, fields: map<string, string>): Result<map<string, string>> {
    if Bytes(raw) > MAX_LINE_BYTES then Err else
    var line := Trim(DropReturn(raw));
    if line == [] || line[0] == '#' then Ok(fields) else
    var n := Find(line, '=');
    if n == |line| then Err else
    var key := Trim(line[..n]);
    if key == [] || key in fields then Err else Ok(fields[key := Trim(line[n + 1..])])
  }

  function ReadLines(lines: seq<string>, fields: map<string, string>): Result<map<string, string>> {
    if lines == [] then Ok(fields) else
    match ReadLine(lines[0], fields)
    case Err => Err
    case Ok(next) => ReadLines(lines[1..], next)
  }

  lemma ReadLinesStep(line: string, more: seq<string>, read: map<string, string>)
    ensures var next := ReadLine(line, read);
            ReadLines([line] + more, read) == if next.Err? then Err else ReadLines(more, next.value)
  {
    assert ([line] + more)[1..] == more;
  }

  method ReadStatusFields(s: string) returns (fields: Result<map<string, string>>)
    ensures fields == ReadLines(Lines(s), map[])
  {
    var read := map[];
    var rest := s;
    while rest != []
      invariant ReadLines(Lines(s), map[]) == ReadLines(Lines(rest), read)
      decreases |rest|
    {
      var n := Find(rest, '\n');
      var next := ReadLine(rest[..n], read);
      ReadLinesStep(rest[..n], if n == |rest| then [] else Lines(rest[n + 1..]), read);
      if next.Err? {
        return Err;
      }
      read := next.value;
      rest := if n == |rest| then [] else rest[n + 1..];
    }
    return Ok(read);
  }

  function Get(fields: map<string, string>, key: string): string {
    if key in fields then fields[key] else ""
  }

  /** The decimal numerals equal to one. */
  predicate IsOne(s: string) {
    var digits := if s != [] && s[0] == '+' then s[1..] else s;
    digits != [] && digits[|digits| - 1] == '1' && forall i :: 0 <= i < |digits| - 1 ==> digits[i] == '0'
  }

  function ParseBool(s: string): Result<bool> {
    if s in {"1", "t", "T", "true", "TRUE", "True"} then Ok(true)
    else if s in {"0", "f", "F", "false", "FALSE", "False"} then Ok(false)
    else Err
  }

  predicate ValidReleaseTarget(lib: Library, target: string) {
    && target == lib.clean(target)
    && |target| > 9 && target[..9] == "releases/"
    && '/' !in target[9..] && target[9..] != "." && target[9..] != ".."
  }

  function CleanOptional(lib: Library, raw: string): string {
    if Trim(raw) == "" then "" else lib.clean(Trim(raw))
  }

  /** The checks made once the fields are decoded. */
  predicate Acceptable(lib: Library, t: Transaction) {
    && (t.createdAt != "" ==> lib.validTime(t.createdAt))
    && t.phase in PHASES
    && (t.candidateTarget != "" ==> ValidReleaseTarget(lib, t.candidateTarget))
    && (t.previousTarget != "" ==> ValidReleaseTarget(lib, t.previousTarget))
  }

  function Decode(lib: Library, fields: map<string, string>): Result<Transaction> {
    if !IsOne(Get(fields, "format_version")) then Err else
    var jobID := Trim(Get(fields, "job_id"));
    if jobID == "" || !ValidJobID(jobID) then Err else
    var legacy := ParseBool(Get(fields, "legacy"));
    var wasActive := ParseBool(Get(fields, "service_was_active"));
    var started := ParseBool(Get(fields, "migration_started"));
    if legacy.Err? || wasActive.Err? || started.Err? then Err else
    var t := Transaction(
               1, jobID, Get(fields, "phase"),
               Trim(Get(fields, "previous_target")), Trim(Get(fields, "candidate_target")),
               CleanOptional(lib, Get(fields, "candidate_dir")), CleanOptional(lib, Get(fields, "temp_root")),
               CleanOptional(lib, Get(fields, "backup_dir")),
               legacy.value, Trim(Get(fields, "service_manager")), wasActive.value, started.value,
               Trim(Get(fields, "created_at")));
    if Acceptable(lib, t) then Ok(t) else Err
  }

  function Read(lib: Library, s: string): Result<Transaction> {
    match ReadLines(Lines(s), map[])
    case Err => Err
    case Ok(fields) => Decode(lib, fields)
  }

  // ---------- reading back what was written

  predicate PlainKey(key: string) {
    && key != [] && Trimmed(key) && key[0] != '#'
    && forall i :: 0 <= i < |key| ==> key[i] !in {'=', '\n', '\r'}
  }

  predicate Distinct(keys: seq<string>) {
    forall i, j :: 0 <= i < j < |keys| ==> keys[i] != keys[j]
  }

  predicate Fit(keys: seq<string>, values: seq<string>)
    requires |keys| == |values|
  {
    forall i :: 0 <= i < |keys| ==> Bytes(Line(keys[i], values[i])) <= MAX_LINE_BYTES
  }

  lemma FindAt(s: string, n: nat, c: char)
    requires n < |s| && s[n] == c && forall i :: 0 <= i < n ==> s[i] != c
    ensures Find(s, c) == n
  {
  }

  lemma LinesSplit(line: string, rest: string)
    requires '\n' !in line
    ensures Lines(line + "\n" + rest) == [line] + Lines(rest)
  {
    var s := line + "\n" + rest;
    FindAt(s, |line|, '\n');
    assert s[..|line|] == line && s[|line| + 1..] == rest;
  }

  lemma TrimOfTrimRight(s: string)
    ensures Trim(TrimRight(s)) == Trim(s)
  {
    var left, right := TrimCuts(s);
    var tail := TrimRightCuts(s);
    var core := Trim(s);
    if core == [] {
      var head := TrimRight(s);
      forall i | 0 <= i < |head| ensures IsSpace(head[i]) {
        assert head[i] == s[i] == (left + right)[i];
      }
      TrimUnpads(head, [], []);
      assert head + [] + [] == head;
    } else {
      TrimRightPads(left + core, right);
      assert TrimRight(left + core) == left + core;
      TrimUnpads(left, core, []);
      assert left + core + [] == left + core;
    }
  }

  /** A line ends with its value's trailing spaces, and trimming drops just those. */
  lemma TrimLine(key: string, value: string)
    requires PlainKey(key)
    ensures Trim(DropReturn(Line(key, value))) == key + "=" + TrimRight(Sanitize(value))
  {
    var raw := Line(key, value);
    assert raw[|raw| - 1] != '\r';
    TrimSigned(key, "=", Sanitize(value));
  }

  lemma TrimSigned(key: string, sign: string, text: string)
    requires PlainKey(key) && |sign| == 1 && !IsSpace(sign[0])
    ensures Trim(key + sign + text) == key + sign + TrimRight(text)
  {
    var tail := TrimRightCuts(text);
    var line := key + sign + TrimRight(text);
    assert key + sign + text == [] + line + tail;
    assert line[0] == key[0];
    TrimUnpads([], line, tail);
  }

  lemma ReadLineBack(key: string, value: string, fields: map<string, string>)
    requires PlainKey(key)
    ensures ReadLine(Line(key, value), fields) ==
            if Bytes(Line(key, value)) > MAX_LINE_BYTES || key in fields then Err
            else Ok(fields[key := Trim(Sanitize(value))])
  {
    TrimLine(key, value);
    KeyLineSplits(key, "=", TrimRight(Sanitize(value)));
    TrimIdempotent(key);
    TrimOfTrimRight(Sanitize(value));
  }

  lemma KeyLineSplits(key: string, sign: string, kept: string)
    requires PlainKey(key) && |sign| == 1 && sign[0] == '='
    ensures var line := key + sign + kept;
      line != [] && line[0] == key[0] && Find(line, '=') == |key|
      && line[..|key|] == key && line[|key| + 1..] == kept
  {
    var line := key + sign + kept;
    FindAt(line, |key|, '=');
  }

  lemma FitSplits(keys: seq<string>, values: seq<string>)
    requires |keys| == |values| > 0
    ensures Fit(keys, values) <==> Bytes(Line(keys[0], values[0])) <= MAX_LINE_BYTES && Fit(keys[1..], values[1..])
  {
    if Fit(keys, values) {
      forall i | 0 <= i < |keys[1..]| ensures Bytes(Line(keys[1..][i], values[1..][i])) <= MAX_LINE_BYTES {
        assert keys[1..][i] == keys[i + 1] && values[1..][i] == values[i + 1];
      }
    }
    if Bytes(Line(keys[0], values[0])) <= MAX_LINE_BYTES && Fit(keys[1..], values[1..]) {
      forall i | 0 <= i < |keys| ensures Bytes(Line(keys[i], values[i])) <= MAX_LINE_BYTES {
        if i > 0 {
          assert keys[1..][i - 1] == keys[i] && values[1..][i - 1] == values[i];
        }
      }
    }
  }

  /** Every value comes back trimmed and on one line, under its own key. */
  lemma {:induction false} ReadLinesBack(keys: seq<string>, values: seq<string>, fields: map<string, string>)
    requires |keys| == |values| && Distinct(keys)
    requires forall i :: 0 <= i < |keys| ==> PlainKey(keys[i]) && keys[i] !in fields
    ensures var r := ReadLines(Lines(Render(keys, values)), fields);
            if Fit(keys, values) then
              r.Ok? && (forall i :: 0 <= i < |keys| ==>
                keys[i] in r.value && r.value[keys[i]] == Trim(Sanitize(values[i])))
              && (forall k :: k in fields ==> k in r.value && r.value[k] == fields[k])
            else r.Err?
  {
    if keys != [] {
      var line, rest := Line(keys[0], values[0]), Render(keys[1..], values[1..]);
      assert '\n' !in line;
      LinesSplit(line, rest);
      ReadLineBack(keys[0], values[0], fields);
      FitSplits(keys, values);
      if Bytes(line) <= MAX_LINE_BYTES {
        var next := fields[keys[0] := Trim(Sanitize(values[0]))];
        ReadLinesBack(keys[1..], values[1..], next);
        var r := ReadLines(Lines(Render(keys, values)), fields);
        assert r == ReadLines(Lines(rest), next);
        if r.Ok? {
          forall i | 0 <= i < |keys|
            ensures keys[i] in r.value && r.value[keys[i]] == Trim(Sanitize(values[i]))
          {
            if i > 0 {
              assert keys[1..][i - 1] == keys[i] && values[1..][i - 1] == values[i];
            }
          }
        }
      }
    }
  }

  // ---------- the round trip

  /** What a written string reads back as. */
  function Flat(s: string): string {
    Trim(Sanitize(s))
  }

  predicate OneLine(s: string) {
    '\n' !in s && '\r' !in s
  }

  function Normal(lib: Library, t: Transaction): Transaction {
    Transaction(
      1, Flat(t.jobID), Flat(t.phase), Flat(t.previousTarget), Flat(t.candidateTarget),
      CleanOptional(lib, Flat(t.candidateDir)), CleanOptional(lib, Flat(t.tempRoot)),
      CleanOptional(lib, Flat(t.backupDir)),
      t.legacy, Flat(t.serviceManager), t.serviceWasActive, t.migrationStarted, Flat(t.createdAt))
  }

  lemma SanitizeFixed(s: string)
    ensures Sanitize(s) == s <==> OneLine(s)
  {
  }

  lemma FlatFixed(s: string)
    ensures Flat(s) == s <==> Trimmed(s) && OneLine(s)
  {
    var left, right := TrimCuts(Sanitize(s));
    SanitizeFixed(s);
    TrimIdempotent(s);
    if Flat(s) == s {
      assert left == [] && right == [];
      assert Sanitize(s) == [] + s + [] == s;
    }
  }

  /** Writing a string on one line touches nothing inside a core that is one line. */
  lemma FlatCore(s: string)
    requires OneLine(Trim(s))
    ensures Flat(s) == Trim(s)
  {
    var left, right := TrimCuts(s);
    var core := Trim(s);
    var l, r := Sanitize(left), Sanitize(right);
    forall i | 0 <= i < |s| ensures Sanitize(s)[i] == (l + core + r)[i] {
      assert s[i] == (left + core + right)[i];
    }
    assert Sanitize(s) == l + core + r;
    TrimUnpads(l, core, r);
  }

  /** The keys' lengths, and the first letters of those with equal lengths. */
  lemma KeyLengths()
    ensures |KEYS[0]| == 14 && |KEYS[1]| == 6 && |KEYS[2]| == 5 && |KEYS[3]| == 15 && |KEYS[4]| == 16
    ensures |KEYS[5]| == 13 && |KEYS[6]| == 9 && |KEYS[7]| == 10 && |KEYS[8]| == 6 && |KEYS[9]| == 15
    ensures |KEYS[10]| == 18 && |KEYS[11]| == 17 && |KEYS[12]| == 10
    ensures KEYS[1][0] == 'j' && KEYS[8][0] == 'l' && KEYS[3][0] == 'p' && KEYS[9][0] == 's'
    ensures KEYS[7][0] == 'b' && KEYS[12][0] == 'c'
  {
  }

  lemma KeysAreDistinct()
    ensures Distinct(KEYS)
  {
    KeyLengths();
    forall i, j | 0 <= i < j < |KEYS| ensures KEYS[i] != KEYS[j] {
      if |KEYS[i]| == |KEYS[j]| {
        assert KEYS[i][0] != KEYS[j][0];
      }
    }
  }

  predicate Word(s: string) {
    s != [] && forall i :: 0 <= i < |s| ==> 'a' <= s[i] <= 'z' || s[i] == '_'
  }

  lemma KeysAreWords(i: nat)
    requires i < |KEYS|
    ensures Word(KEYS[i])
  {
    if i < 4 {
      EarlyKeysAreWords(i);
    } else if i < 8 {
      MiddleKeysAreWords(i);
    } else {
      LateKeysAreWords(i);
    }
  }

  lemma EarlyKeysAreWords(i: nat)
    requires i < 4
    ensures Word(KEYS[i])
  {
    assert Word("format_version");
    assert Word("job_id");
    assert Word("phase");
    assert Word("previous_target");
  }

  lemma MiddleKeysAreWords(i: nat)
    requires 4 <= i < 8
    ensures Word(KEYS[i])
  {
    assert Word("candidate_target");
    assert Word("candidate_dir");
    assert Word("temp_root");
    assert Word("backup_dir");
  }

  lemma LateKeysAreWords(i: nat)
    requires 8 <= i < |KEYS|
    ensures Word(KEYS[i])
  {
    assert Word("legacy");
    assert Word("service_manager");
    assert Word("service_was_active");
    assert Word("migration_started");
    assert Word("created_at");
  }

  lemma KeysArePlain(i: nat)
    requires i < |KEYS|
    ensures PlainKey(KEYS[i])
  {
    KeysAreWords(i);
    var key := KEYS[i];
    assert forall j :: 0 <= j < |key| ==> !IsSpace(key[j]);
  }

  lemma GetsBack(t: Transaction, fields: map<string, string>, i: nat)
    requires i < |KEYS| && ReadLines(Lines(Render(KEYS, Values(t))), map[]) == Ok(fields) && Fit(KEYS, Values(t))
    ensures Get(fields, KEYS[i]) == Flat(Values(t)[i])
  {
    KeysAreDistinct();
    forall i: nat | i < |KEYS| ensures PlainKey(KEYS[i]) {
      KeysArePlain(i);
    }
    ReadLinesBack(KEYS, Values(t), map[]);
  }

  lemma FlatTrimmed(s: string)
    ensures Trim(Flat(s)) == Flat(s)
  {
    TrimIdempotent(Sanitize(s));
  }

  lemma GetsAllBack(t: Transaction, fields: map<string, string>)
    requires ReadLines(Lines(Render(KEYS, Values(t))), map[]) == Ok(fields) && Fit(KEYS, Values(t))
    ensures Get(fields, "format_version") == Flat("1")
    ensures Get(fields, "job_id") == Flat(t.jobID)
    ensures Get(fields, "phase") == Flat(t.phase)
    ensures Get(fields, "previous_target") == Flat(t.previousTarget)
    ensures Get(fields, "candidate_target") == Flat(t.candidateTarget)
    ensures Get(fields, "candidate_dir") == Flat(t.candidateDir)
    ensures Get(fields, "temp_root") == Flat(t.tempRoot)
    ensures Get(fields, "backup_dir") == Flat(t.backupDir)
    ensures Get(fields, "legacy") == Flat(Bool(t.legacy))
    ensures Get(fields, "service_manager") == Flat(t.serviceManager)
    ensures Get(fields, "service_was_active") == Flat(Bool(t.serviceWasActive))
    ensures Get(fields, "migration_started") == Flat(Bool(t.migrationStarted))
    ensures Get(fields, "created_at") == Flat(t.createdAt)
  {
    GetsBack(t, fields, 0);
    GetsBack(t, fields, 1);
    GetsBack(t, fields, 2);
    GetsBack(t, fields, 3);
    GetsBack(t, fields, 4);
    GetsBack(t, fields, 5);
    GetsBack(t, fields, 6);
    GetsBack(t, fields, 7);
    GetsBack(t, fields, 8);
    GetsBack(t, fields, 9);
    GetsBack(t, fields, 10);
    GetsBack(t, fields, 11);
    GetsBack(t, fields, 12);
  }

  lemma JobIDReadsBack(id: string)
    requires ValidJobID(id)
    ensures Flat(id) == Trim(Flat(id)) != "" && ValidJobID(Flat(id))
  {
    FlatCore(id);
    TrimIdempotent(id);
  }

  lemma FlagsReadBack(b: bool)
    ensures ParseBool(Flat(Bool(b))) == Ok(b)
  {
    BoolIsFlat(b);
  }

  lemma BoolIsFlat(b: bool)
    ensures Flat(Bool(b)) == Bool(b)
  {
    FlatFixed(Bool(b));
    if b {
      assert Trimmed("true") && OneLine("true");
    } else {
      assert Trimmed("false") && OneLine("false");
    }
  }

  lemma VersionReadsBack()
    ensures IsOne(Flat("1"))
  {
    FlatFixed("1");
  }

  lemma DecodesToNormal(lib: Library, t: Transaction, fields: map<string, string>)
    requires ReadLines(Lines(Render(KEYS, Values(t))), map[]) == Ok(fields) && Fit(KEYS, Values(t))
    requires ValidJobID(t.jobID)
    ensures Decode(lib, fields) == if Acceptable(lib, Normal(lib, t)) then Ok(Normal(lib, t)) else Err
  {
    GetsAllBack(t, fields);
    JobIDReadsBack(t.jobID);
    VersionReadsBack();
    FlagsReadBack(t.legacy);
    FlagsReadBack(t.serviceWasActive);
    FlagsReadBack(t.migrationStarted);
    FlatTrimmed(t.previousTarget);
    FlatTrimmed(t.candidateTarget);
    FlatTrimmed(t.serviceManager);
    FlatTrimmed(t.createdAt);
  }

  /** For every transaction that is written at all, exactly what reading it back gives. */
  lemma ReadAfterWrite(lib: Library, t: Transaction)
    requires Data(t).Ok?
    ensures Read(lib, Data(t).value) ==
            if Fit(KEYS, Values(t)) && Acceptable(lib, Normal(lib, t)) then Ok(Normal(lib, t)) else Err
  {
    KeysAreDistinct();
    forall i: nat | i < |KEYS| ensures PlainKey(KEYS[i]) {
      KeysArePlain(i);
    }
    ReadLinesBack(KEYS, Values(t), map[]);
    if Fit(KEYS, Values(t)) {
      DecodesToNormal(lib, t, ReadLines(Lines(Render(KEYS, Values(t))), map[]).value);
    }
  }

  /** Cleaning a path only ever takes characters away. */
  ghost predicate Lexical(lib: Library) {
    forall p :: p != "" ==> |lib.clean(p)| <= |p| && forall c :: c in lib.clean(p) ==> c in p
  }

  predicate CleanPath(lib: Library, path: string) {
    path == "" || (Trimmed(path) && OneLine(path) && lib.clean(path) == path)
  }

  lemma CleanPathFixed(lib: Library, path: string)
    requires Lexical(lib)
    ensures CleanOptional(lib, Flat(path)) == path <==> CleanPath(lib, path)
  {
    var flat := Flat(path);
    FlatTrimmed(path);
    FlatFixed(path);
    if flat != "" && lib.clean(flat) == path {
      var left, right := TrimCuts(Sanitize(path));
      assert left == [] && right == [] && flat == Sanitize(path);
    }
    if path == "" {
      assert Sanitize(path) == "";
    }
  }

  predicate Plain(s: string) {
    Trimmed(s) && OneLine(s)
  }

  predicate Canonical(lib: Library, t: Transaction) {
    && t.formatVersion == 1
    && Plain(t.jobID) && Plain(t.previousTarget) && Plain(t.candidateTarget)
    && Plain(t.serviceManager) && Plain(t.createdAt)
    && CleanPath(lib, t.candidateDir) && CleanPath(lib, t.tempRoot) && CleanPath(lib, t.backupDir)
    && Acceptable(lib, t) && Fit(KEYS, Values(t))
  }

  /** A written transaction reads back as itself exactly when it is in canonical form. */
  lemma RoundTrip(lib: Library, t: Transaction)
    requires Data(t).Ok? && Lexical(lib)
    ensures Read(lib, Data(t).value) == Ok(t) <==> Canonical(lib, t)
  {
    ReadAfterWrite(lib, t);
    FlatFixed(t.jobID);
    FlatFixed(t.phase);
    FlatFixed(t.previousTarget);
    FlatFixed(t.candidateTarget);
    FlatFixed(t.serviceManager);
    FlatFixed(t.createdAt);
    CleanPathFixed(lib, t.candidateDir);
    CleanPathFixed(lib, t.tempRoot);
    CleanPathFixed(lib, t.backupDir);
    if t.phase in PHASES {
      PhasesArePlain(t.phase);
    }
  }

  lemma PhasesArePlain(phase: string)
    requires phase in PHASES
    ensures Plain(phase)
  {
    assert forall c :: c in phase ==> 'a' <= c <= 'z';
  }
}
