/** The fallback go.mod reader: a line-by-line state machine that remembers whether
    it is inside a `require ( … )` block. The file arrives as its sequence of lines;
    opening it can fail. Running `go list -m -json all` is not part of this model:
    its outcome is an input of the audit. */
module Parser {
  import opened Wrappers
  import opened Strings

  /** A module of the dependency graph. Of the fields `go list` reports, the audit reads
      only these four. */
  datatype Module = Module(path: string, version: string, indirect: bool, main: bool)

  /** The module a line's fields describe: path and version first, indirect when some
      field is exactly "indirect". The main flag is never set here. */
  function ModuleFromFields(parts: seq<string>): Module
    requires |parts| >= 2
  {
    Module(parts[0], parts[1], "indirect" in parts, false)
  }

  /** `parseModuleLine`: path and version from the first two fields, and the loop that
      looks for an "indirect" field, skipping "//" markers. */
  method ParseModuleLine(parts: seq<string>) returns (mod: Module)
    requires |parts| >= 2
    ensures mod.path == parts[0] && mod.version == parts[1]
    ensures mod.indirect <==> exists k :: 0 <= k < |parts| && parts[k] == "indirect"
    ensures !mod.main
  {
    mod := Module(parts[0], parts[1], false, false);
    for i := 0 to |parts|
      invariant mod.path == parts[0] && mod.version == parts[1] && !mod.main
      invariant mod.indirect <==> exists k :: 0 <= k < i && parts[k] == "indirect"
    {
      var p := parts[i];
      if p == "//" {
        continue;
      }
      if p == "indirect" {
        mod := mod.(indirect := true);
      }
    }
  }

  /** One line of the state machine: the block state after the line and the modules
      (none or one) the line yields. */
  function ScanLine(raw: string, inRequire: bool): (bool, seq<Module>) {
    var line := TrimSpace(raw);
    if line == "" || HasPrefix(line, "//") then (inRequire, [])
    else if line == "require (" then (true, [])
    else if line == ")" && inRequire then (false, [])
    else if HasPrefix(line, "require ") then
      var parts := Fields(line);
      (inRequire, if |parts| >= 3 then [ModuleFromFields(parts[1..])] else [])
    else if inRequire then
      var parts := Fields(line);
      (inRequire, if |parts| >= 2 then [ModuleFromFields(parts)] else [])
    else (inRequire, [])
  }

  /** The scanner loop of `ParseGoMod` for a given per-line step: the modules the lines
      yield, in file order, starting from the given block state. */
  function Scan(step: (string, bool) -> (bool, seq<Module>), lines: seq<string>, inRequire: bool): seq<Module>
    decreases |lines|
  {
    if lines == [] then []
    else
      var (next, found) := step(lines[0], inRequire);
      found + Scan(step, lines[1..], next)
  }

  /** The block state the scanner loop is in after the given lines. */
  function ScanState(step: (string, bool) -> (bool, seq<Module>), lines: seq<string>, inRequire: bool): bool
    decreases |lines|
  {
    if lines == [] then inRequire else ScanState(step, lines[1..], step(lines[0], inRequire).0)
  }

  /** The modules `ParseGoMod` reads from the lines of a go.mod file. */
  function ParseLines(lines: seq<string>): seq<Module> {
    Scan(ScanLine, lines, false)
  }

  /** The body of `ParseGoMod`'s scanner loop for one line: the block state it leaves and
      the module it appends, if any. */
  method ScanStep(raw: string, inRequire: bool) returns (next: bool, found: seq<Module>)
    ensures (next, found) == ScanLine(raw, inRequire)
  {
    next, found := inRequire, [];
    var line := TrimSpace(raw);
    if line == "" || HasPrefix(line, "//") {
      return;
    }
    if line == "require (" {
      next := true;
      return;
    }
    if line == ")" && inRequire {
      next := false;
      return;
    }
    if HasPrefix(line, "require ") {
      var parts := Fields(line);
      if |parts| >= 3 {
        var mod := ParseModuleLine(parts[1..]);
        assert mod == ModuleFromFields(parts[1..]);
        found := [mod];
      }
    } else if inRequire {
      var parts := Fields(line);
      if |parts| >= 2 {
        var mod := ParseModuleLine(parts);
        assert mod == ModuleFromFields(parts);
        found := [mod];
      }
    }
  }

  /** `ParseGoMod`: an unopenable file is an error; otherwise the scanner loop carries
      `inRequire` from line to line and appends each module it finds. */
  method ParseGoMod(file: Option<seq<string>>) returns (r: Result<seq<Module>>)
    ensures r.Err? <==> file.None?
    ensures file.Some? ==> r == Ok(ParseLines(file.value))
  {
    if file.None? {
      return Err("cannot open go.mod");
    }
    var modules: seq<Module> := [];
    var inRequire := false;
    var rest := file.value;
    while rest != []
      invariant modules + Scan(ScanLine, rest, inRequire) == ParseLines(file.value)
      decreases |rest|
    {
      var next, found := ScanStep(rest[0], inRequire);
      ScanStepKeeps(ScanLine, modules, rest, inRequire, ParseLines(file.value));
      modules := modules + found;
      inRequire := next;
      rest := rest[1..];
    }
    assert modules + [] == modules;
    return Ok(modules);
  }

  /** One turn of the scanner loop keeps its invariant: what has been collected, followed by
      what the remaining lines yield, is what the whole file yields. */
  lemma ScanStepKeeps(step: (string, bool) -> (bool, seq<Module>), modules: seq<Module>, rest: seq<string>, inRequire: bool, total: seq<Module>)
    requires rest != [] && modules + Scan(step, rest, inRequire) == total
    ensures var (next, found) := step(rest[0], inRequire);
      (modules + found) + Scan(step, rest[1..], next) == total
  {
  }

  /** Modules come out in file order: scanning two stretches of a file one after the other
      gives the first stretch's modules followed by the second's, whatever the step. */
  lemma {:induction false} ScanAppend(step: (string, bool) -> (bool, seq<Module>), a: seq<string>, b: seq<string>, inRequire: bool)
    ensures Scan(step, a + b, inRequire) == Scan(step, a, inRequire) + Scan(step, b, ScanState(step, a, inRequire))
    decreases |a|
  {
    if a == [] {
      assert a + b == b;
    } else {
      var next := step(a[0], inRequire).0;
      assert (a + b)[0] == a[0];
      assert (a + b)[1..] == a[1..] + b;
      ScanAppend(step, a[1..], b, next);
    }
  }

  /** A go.mod file read in two stretches: the modules of the first, then those the second
      yields from the block state the first leaves. */
  lemma ParseLinesAppend(a: seq<string>, b: seq<string>)
    ensures ParseLines(a + b) == ParseLines(a) + Scan(ScanLine, b, ScanState(ScanLine, a, false))
  {
    ScanAppend(ScanLine, a, b, false);
  }

  /** A step that yields at most one module per line yields no more modules than lines. */
  lemma {:induction false} ScanAtMostOnePerLine(step: (string, bool) -> (bool, seq<Module>), lines: seq<string>, inRequire: bool)
    requires forall line, st :: |step(line, st).1| <= 1
    ensures |Scan(step, lines, inRequire)| <= |lines|
    decreases |lines|
  {
    if lines != [] {
      ScanAtMostOnePerLine(step, lines[1..], step(lines[0], inRequire).0);
    }
  }

  /** A line of go.mod yields at most one module, so there are never more modules than lines. */
  lemma ParsedAtMostOnePerLine(lines: seq<string>)
    ensures |ParseLines(lines)| <= |lines|
  {
    ScanAtMostOnePerLine(ScanLine, lines, false);
  }

  /** A step that never yields the main module scans to a list without it. */
  lemma {:induction false} ScanNeverMain(step: (string, bool) -> (bool, seq<Module>), lines: seq<string>, inRequire: bool)
    requires forall line, st, m :: m in step(line, st).1 ==> !m.main
    ensures forall m :: m in Scan(step, lines, inRequire) ==> !m.main
    decreases |lines|
  {
    if lines != [] {
      ScanNeverMain(step, lines[1..], step(lines[0], inRequire).0);
    }
  }

  /** The fallback parser never marks a module as the main module. */
  lemma ParsedNeverMain(lines: seq<string>)
    ensures forall m :: m in ParseLines(lines) ==> !m.main
  {
    ScanNeverMain(ScanLine, lines, false);
  }

  /** The line opens a require block or is a single-line require. */
  predicate MentionsRequire(raw: string) {
    var line := TrimSpace(raw);
    line == "require (" || HasPrefix(line, "require ")
  }

  /** Outside a require block, lines that neither open a block nor start with
      "require " (module, go, replace, a stray ")") yield nothing and leave the state closed. */
  lemma {:induction false} NoRequireNoModules(lines: seq<string>)
    requires forall k :: 0 <= k < |lines| ==> !MentionsRequire(lines[k])
    ensures Scan(ScanLine, lines, false) == [] && !ScanState(ScanLine, lines, false)
    decreases |lines|
  {
    if lines != [] {
      assert ScanLine(lines[0], false) == (false, []) by {
        assert !MentionsRequire(lines[0]);
      }
      NoRequireNoModules(lines[1..]);
    }
  }

  /** Scanning a single line gives what that line yields. */
  lemma ScanOne(step: (string, bool) -> (bool, seq<Module>), line: string, inRequire: bool)
    ensures Scan(step, [line], inRequire) == step(line, inRequire).1
    ensures ScanState(step, [line], inRequire) == step(line, inRequire).0
  {
    assert [line][1..] == [];
    assert step(line, inRequire).1 + [] == step(line, inRequire).1;
  }

  /** Scanning a line and then more lines. */
  lemma ScanCons(step: (string, bool) -> (bool, seq<Module>), line: string, rest: seq<string>, inRequire: bool)
    ensures Scan(step, [line] + rest, inRequire)
         == step(line, inRequire).1 + Scan(step, rest, step(line, inRequire).0)
  {
    assert ([line] + rest)[0] == line;
    assert ([line] + rest)[1..] == rest;
  }

  /** A blank line or a comment line yields nothing and leaves the block state alone. */
  lemma ScanSkipped(raw: string, inRequire: bool)
    requires TrimSpace(raw) == "" || HasPrefix(TrimSpace(raw), "//")
    ensures ScanLine(raw, inRequire) == (inRequire, [])
  {
  }

  /** A line that trims to "require (" opens a block, from either state. */
  lemma ScanOpener(raw: string, inRequire: bool)
    requires TrimSpace(raw) == "require ("
    ensures ScanLine(raw, inRequire) == (true, [])
  {
  }

  /** A line that trims to ")" closes an open block. */
  lemma ScanCloser(raw: string)
    requires TrimSpace(raw) == ")"
    ensures ScanLine(raw, true) == (false, [])
  {
  }

  /** Inside a block, a line that is none of the shapes tested before it is an entry: its
      first two fields are a module path and version. */
  lemma ScanEntry(raw: string)
    requires var line := TrimSpace(raw);
      line != [] && line[0] != '/' && line != "require (" && line != ")" && !HasPrefix(line, "require ")
    ensures var parts := Fields(TrimSpace(raw));
      ScanLine(raw, true) == (true, if |parts| >= 2 then [ModuleFromFields(parts)] else [])
  {
    var line := TrimSpace(raw);
    assert !HasPrefix(line, "//") by {
      if |line| >= 2 {
        assert line[..2][0] == line[0];
      }
    }
  }

  /** A trimmed line that starts with "require " but does not open a block is read as a
      single-line require, inside a block or outside one, and leaves the state alone. */
  lemma ScanSingleRequire(raw: string, inRequire: bool)
    requires HasPrefix(TrimSpace(raw), "require ") && TrimSpace(raw) != "require ("
    ensures var parts := Fields(TrimSpace(raw));
      ScanLine(raw, inRequire) == (inRequire, if |parts| >= 3 then [ModuleFromFields(parts[1..])] else [])
  {
    var line := TrimSpace(raw);
    assert line[0] == line[..8][0] == 'r';
  }

  /** `"require" + " " + p + " " + v` splits into exactly those three fields. */
  lemma FieldsOfRequireLine(p: string, v: string)
    requires p != [] && NoSpace(p) && v != [] && NoSpace(v)
    ensures Fields("require " + p + " " + v) == ["require", p, v]
  {
    var ws := ["require", p, v];
    assert Join(ws[2..], ' ') == v;
    assert Join(ws, ' ') == "require " + p + " " + v;
    FieldsJoin(ws);
  }

  /** A single-line require of a path and a version yields that one direct module. */
  lemma SingleRequireLine(p: string, v: string)
    requires p != [] && NoSpace(p) && v != [] && NoSpace(v)
    requires p != "indirect" && v != "indirect"
    ensures ParseLines(["require " + p + " " + v]) == [Module(p, v, false, false)]
  {
    var line := "require " + p + " " + v;
    TrimSpaceOfTrimmed(line);
    FieldsOfRequireLine(p, v);
    assert |line| > |"require ("|;
    assert line[..8] == "require ";
    ScanSingleRequire(line, false);
    assert ["require", p, v][1..] == [p, v];
    ScanOne(ScanLine, line, false);
  }

  /** Trimming a block entry `p v // indirect` removes its indentation. */
  lemma EntryTrim(p: string, v: string)
    requires p != [] && NoSpace(p) && v != [] && NoSpace(v)
    ensures TrimSpace("\t" + p + " " + v + " // indirect") == p + " " + v + " // indirect"
  {
    var body := p + " " + v + " // indirect";
    assert "\t" + p + " " + v + " // indirect" == ['\t'] + body;
    TrimSpaceLeading('\t', body);
    assert body[0] == p[0];
    TrimSpaceOfTrimmed(body);
  }

  /** The fields of a block entry `p v // indirect`. */
  lemma EntryFields(p: string, v: string)
    requires p != [] && NoSpace(p) && v != [] && NoSpace(v)
    ensures Fields(p + " " + v + " // indirect") == [p, v, "//", "indirect"]
  {
    var ws := [p, v, "//", "indirect"];
    assert Join(ws[3..], ' ') == "indirect";
    assert Join(ws[2..], ' ') == "// indirect";
    assert Join(ws[1..], ' ') == v + " // indirect";
    assert Join(ws, ' ') == p + " " + v + " // indirect";
    assert forall w :: w in ws ==> w != [] && NoSpace(w);
    FieldsJoin(ws);
  }

  /** A line whose first word `p` is followed by white space starts with "require " only
      when that word is "require". */
  lemma RequireFirstWord(p: string, rest: string)
    requires p != [] && NoSpace(p) && rest != [] && IsSpace(rest[0])
    requires HasPrefix(p + rest, "require ")
    ensures p == "require"
  {
    var line := p + rest;
    FieldsCons(p, rest);
    assert line[7] == line[..8][7] == ' ';
    assert line[..7] == line[..8][..7] == "require";
    assert line == "require" + line[7..];
    FieldsCons("require", line[7..]);
    assert Fields(line)[0] == p;
  }

  /** Inside a block, an entry `p v // indirect` yields the indirect module `p` at `v`. */
  lemma ScanIndirectEntry(p: string, v: string)
    requires p != [] && NoSpace(p) && v != [] && NoSpace(v)
    requires p != "require" && p[0] != '/'
    ensures ScanLine("\t" + p + " " + v + " // indirect", true) == (true, [Module(p, v, true, false)])
  {
    var body := p + " " + v + " // indirect";
    EntryTrim(p, v);
    EntryFields(p, v);
    assert body == p + (" " + v + " // indirect");
    if HasPrefix(body, "require ") {
      RequireFirstWord(p, " " + v + " // indirect");
    }
    assert body[0] == p[0];
    assert |body| > 9;
    ScanEntry("\t" + p + " " + v + " // indirect");
    var parts := [p, v, "//", "indirect"];
    assert parts[3] == "indirect";
  }

  /** A block entry marked `// indirect` yields an indirect module; the block's delimiters
      yield nothing. An entry whose path is "require" would be read as a single-line require
      instead, and one starting with '/' as a comment, hence the exclusions. */
  lemma RequireBlockEntry(p: string, v: string)
    requires p != [] && NoSpace(p) && v != [] && NoSpace(v)
    requires p != "require" && p[0] != '/'
    ensures ParseLines(["require (", "\t" + p + " " + v + " // indirect", ")"])
         == [Module(p, v, true, false)]
  {
    var entry := "\t" + p + " " + v + " // indirect";
    ScanIndirectEntry(p, v);
    TrimSpaceOfTrimmed("require (");
    ScanOpener("require (", false);
    TrimSpaceOfTrimmed(")");
    ScanCloser(")");
    ScanCons(ScanLine, "require (", [entry, ")"], false);
    ScanCons(ScanLine, entry, [")"], true);
    ScanOne(ScanLine, ")", true);
    assert ["require (", entry, ")"] == ["require ("] + [entry, ")"];
    assert [entry, ")"] == [entry] + [")"];
  }

  /** A comment after the opening parenthesis defeats the block: "require ( // c" is read
      as a single-line require of a module named "(" at version "//" (indirect exactly when
      the comment is the word "indirect"), and the block stays closed, so the entries that
      follow are not read. */
  lemma CommentedBlockOpener(c: string)
    requires c != [] && NoSpace(c)
    ensures ScanLine("require ( // " + c, false) == (false, [Module("(", "//", c == "indirect", false)])
  {
    var line := "require ( // " + c;
    var ws := ["require", "(", "//", c];
    assert Join(ws[3..], ' ') == c;
    assert Join(ws[2..], ' ') == "// " + c;
    assert Join(ws[1..], ' ') == "( // " + c;
    assert Join(ws, ' ') == line;
    assert forall w :: w in ws ==> w != [] && NoSpace(w);
    FieldsJoin(ws);
    assert line[0] == 'r';
    TrimSpaceOfTrimmed(line);
    assert line[..8] == "require ";
    assert line != "require (" by {
      assert |line| > 9;
    }
    ScanSingleRequire(line, false);
    assert ws[1..] == ["(", "//", c];
    assert "indirect" in ws[1..] <==> c == "indirect";
  }
}
