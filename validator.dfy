/** `check_code_of_a_strategy`: the line-by-line allow-list a strategy file
    must pass, which hands back the name of the strategy's function. */
module Validator {
  import opened Outcomes
  import opened PyStr

  /** A column-0 function header: starts with `def ` and holds `(`, `)` and `:`. */
  predicate IsDefHeader(line: string) {
    StartsWith(line, "def ") && '(' in line && ')' in line && ':' in line
  }

  /** A line skipped as indented code, a comment or a string literal. */
  predicate IsSkipped(line: string) {
    line != "" && line[0] in {'\n', '\t', ' ', '#', '\'', '"'}
  }

  predicate IsImport(line: string) {
    StartsWith(line, "from") || StartsWith(line, "import")
  }

  /** The allow-list, one line at a time. */
  predicate IsPermitted(line: string) {
    line == "" || IsDefHeader(line) || IsSkipped(line) || (IsImport(line) && !Contains(line, " os"))
  }

  predicate AllPermitted(lines: seq<string>) {
    forall i :: 0 <= i < |lines| ==> IsPermitted(lines[i])
  }

  predicate HasDefHeader(lines: seq<string>) {
    exists i :: 0 <= i < |lines| && IsDefHeader(lines[i])
  }

  /** n is the name taken from the last def header of lines. */
  ghost predicate LastDefNamed(lines: seq<string>, n: string) {
    exists k :: 0 <= k < |lines| && IsDefHeader(lines[k]) && FunctionName(lines[k]) == n &&
      forall j :: k < j < |lines| ==> !IsDefHeader(lines[j])
  }

  /** `line.split('(')[0].split()[-1]`: the last word before the first `(`. */
  function FunctionName(line: string): (name: string)
    requires IsDefHeader(line)
    ensures name != "" && NoSpace(name) && '(' !in name
  {
    var head := Split(line, '(')[0];
    assert line[..4] == "def ";
    assert line[0] != '(' && line[1] != '(' && line[2] != '(' && line[3] != '(';
    assert |head| >= 4;
    assert head[0] == line[0] == 'd';
    WordsFromNonEmpty(head, "", 0);
    WordsFromAvoid(head, "", '(');
    var ws := Words(head);
    ws[|ws| - 1]
  }

  /** The loop over the lines; `name` is the name bound so far, if any. */
  function Scan(lines: seq<string>, name: Option<string>): Result<string>
    decreases |lines|
  {
    if lines == [] then
      (if name.Some? then Ok(name.value) else Err(UnboundName))
    else
      var line := lines[0];
      if line == "" then Scan(lines[1..], name)
      else if IsDefHeader(line) then Scan(lines[1..], Some(FunctionName(line)))
      else if IsSkipped(line) then Scan(lines[1..], name)
      else if IsImport(line) then
        (if Contains(line, " os") then Err(OsImport(line)) else Scan(lines[1..], name))
      else Err(IllegalLine(line))
  }

  /** `check_code_of_a_strategy(code)` as a value. */
  function Validate(code: string): Result<string> {
    var defs := Count(code, "def ");
    if defs != 1 then Err(DefCount(defs))
    else if ';' in code then Err(Semicolon)
    else Scan(Split(code, '\n'), None)
  }

  /** `check_code_of_a_strategy(code)`, line by line. */
  method CheckCodeOfAStrategy(code: string) returns (r: Result<string>)
    ensures r == Validate(code)
  {
    var defs := Count(code, "def ");
    if defs != 1 {
      return Err(DefCount(defs));
    } else if ';' in code {
      return Err(Semicolon);
    }
    var lines := Split(code, '\n');
    var name: Option<string> := None;
    for i := 0 to |lines|
      invariant Scan(lines, None) == Scan(lines[i..], name)
    {
      var line := lines[i];
      assert lines[i..][1..] == lines[i + 1..];
      if line == "" {
        continue;
      }
      if IsDefHeader(line) {
        name := Some(FunctionName(line));
      } else if IsSkipped(line) {
        continue;
      } else if IsImport(line) {
        if Contains(line, " os") {
          return Err(OsImport(line));
        }
      } else {
        return Err(IllegalLine(line));
      }
    }
    if name.None? {
      return Err(UnboundName);
    }
    return Ok(name.value);
  }

  /** Scanning succeeds exactly when every line is permitted and some name is bound. */
  lemma {:induction false} ScanOkIff(lines: seq<string>, name: Option<string>)
    ensures Scan(lines, name).Ok? <==> AllPermitted(lines) && (name.Some? || HasDefHeader(lines))
    decreases |lines|
  {
    if lines != [] {
      var line := lines[0];
      var rest := lines[1..];
      var name' := if IsDefHeader(line) then Some(FunctionName(line)) else name;
      ScanOkIff(rest, name');
      assert AllPermitted(lines) <==> IsPermitted(line) && AllPermitted(rest) by {
        if IsPermitted(line) && AllPermitted(rest) {
          forall i | 0 <= i < |lines| ensures IsPermitted(lines[i]) {
            if i > 0 { assert lines[i] == rest[i - 1]; }
          }
        }
      }
      assert HasDefHeader(lines) <==> IsDefHeader(line) || HasDefHeader(rest) by {
        if HasDefHeader(lines) && !IsDefHeader(line) {
          var i :| 0 <= i < |lines| && IsDefHeader(lines[i]);
          assert rest[i - 1] == lines[i];
        }
        if HasDefHeader(rest) {
          var i :| 0 <= i < |rest| && IsDefHeader(rest[i]);
          assert lines[i + 1] == rest[i];
        }
      }
    }
  }

  /** A successful scan returns the name of the last def header, or the name
      bound before it when there is none. */
  lemma {:induction false} ScanName(lines: seq<string>, name: Option<string>)
    requires Scan(lines, name).Ok?
    ensures LastDefNamed(lines, Scan(lines, name).value) ||
            (!HasDefHeader(lines) && name == Some(Scan(lines, name).value))
    decreases |lines|
  {
    if lines != [] {
      var line := lines[0];
      var rest := lines[1..];
      var name' := if IsDefHeader(line) then Some(FunctionName(line)) else name;
      assert Scan(lines, name) == Scan(rest, name');
      var v := Scan(lines, name).value;
      ScanName(rest, name');
      if LastDefNamed(rest, v) {
        var k :| 0 <= k < |rest| && IsDefHeader(rest[k]) && FunctionName(rest[k]) == v &&
          forall j :: k < j < |rest| ==> !IsDefHeader(rest[j]);
        assert lines[k + 1] == rest[k];
        assert forall j :: k + 1 < j < |lines| ==> lines[j] == rest[j - 1];
      } else if IsDefHeader(line) {
        assert forall j :: 0 < j < |lines| ==> lines[j] == rest[j - 1];
        assert LastDefNamed(lines, v);
      } else {
        forall i | 0 < i < |lines| ensures !IsDefHeader(lines[i]) {
          assert lines[i] == rest[i - 1];
        }
      }
    }
  }

  /** A failing scan names the first line outside the allow-list. */
  lemma {:induction false} ScanFirstBadLine(lines: seq<string>, name: Option<string>, k: nat)
    requires k < |lines| && !IsPermitted(lines[k])
    requires forall j :: 0 <= j < k ==> IsPermitted(lines[j])
    ensures Scan(lines, name) ==
      (if IsImport(lines[k]) then Err(OsImport(lines[k])) else Err(IllegalLine(lines[k])))
    decreases |lines|
  {
    if k > 0 {
      var line := lines[0];
      var name' := if IsDefHeader(line) then Some(FunctionName(line)) else name;
      assert IsPermitted(lines[0]);
      assert forall j :: 0 <= j < k - 1 ==> lines[1..][j] == lines[j + 1];
      ScanFirstBadLine(lines[1..], name', k - 1);
    }
  }

  /** The validator accepts a source exactly when `def ` occurs once, there is
      no `;`, every line is on the allow-list and one line is a def header. */
  lemma ValidateOkIff(code: string)
    ensures Validate(code).Ok? <==>
      Count(code, "def ") == 1 && ';' !in code &&
      AllPermitted(Split(code, '\n')) && HasDefHeader(Split(code, '\n'))
  {
    ScanOkIff(Split(code, '\n'), None);
  }

  /** On success the name is the one on the last def header, a non-empty
      word without whitespace. */
  lemma ValidateName(code: string)
    requires Validate(code).Ok?
    ensures LastDefNamed(Split(code, '\n'), Validate(code).value)
    ensures Validate(code).value != "" && NoSpace(Validate(code).value)
  {
    ScanName(Split(code, '\n'), None);
    var lines := Split(code, '\n');
    var k :| 0 <= k < |lines| && IsDefHeader(lines[k]) && FunctionName(lines[k]) == Validate(code).value &&
      forall j :: k < j < |lines| ==> !IsDefHeader(lines[j]);
  }

  /** A source whose only `def ` sits on an indented line binds no name and fails. */
  lemma ValidateUnboundName(code: string)
    requires Count(code, "def ") == 1 && ';' !in code
    requires AllPermitted(Split(code, '\n')) && !HasDefHeader(Split(code, '\n'))
    ensures Validate(code) == Err(UnboundName)
  {
    UnboundScan(Split(code, '\n'));
  }

  lemma {:induction false} UnboundScan(lines: seq<string>)
    requires AllPermitted(lines) && !HasDefHeader(lines)
    ensures Scan(lines, None) == Err(UnboundName)
    decreases |lines|
  {
    if lines != [] {
      assert IsPermitted(lines[0]) && !IsDefHeader(lines[0]);
      assert forall j :: 0 <= j < |lines| - 1 ==> lines[1..][j] == lines[j + 1];
      UnboundScan(lines[1..]);
    }
  }

  /** Past the two whole-text checks, the fault names the first bad line. */
  lemma ValidateFirstBadLine(code: string, k: nat)
    requires Count(code, "def ") == 1 && ';' !in code
    requires k < |Split(code, '\n')| && !IsPermitted(Split(code, '\n')[k])
    requires forall j :: 0 <= j < k ==> IsPermitted(Split(code, '\n')[j])
    ensures Validate(code).Err?
    ensures Validate(code).fault ==
      if IsImport(Split(code, '\n')[k]) then OsImport(Split(code, '\n')[k])
      else IllegalLine(Split(code, '\n')[k])
  {
    ScanFirstBadLine(Split(code, '\n'), None, k);
  }

  /** Writing a header for a name and reading the name back round-trips. */
  lemma DefHeaderRoundTrip(name: string, rest: string)
    requires name != "" && NoSpace(name) && '(' !in name
    requires ')' in rest && ':' in rest
    ensures IsDefHeader("def " + name + "(" + rest)
    ensures FunctionName("def " + name + "(" + rest) == name
  {
    HeaderIsDef(name, rest);
    HeaderBeforeParen(name, rest);
    WordsCat("def", ' ', name);
    WordsToken("def");
    WordsToken(name);
  }

  /** The written header is a `def` line. */
  lemma HeaderIsDef(name: string, rest: string)
    requires ')' in rest && ':' in rest
    ensures IsDefHeader("def " + name + "(" + rest)
  {
    var head := "def " + name;
    var line := "def " + name + "(" + rest;
    assert line == head + ['('] + rest;
    assert line[..4] == "def ";
    assert line[|head|] == '(';
    var i :| 0 <= i < |rest| && rest[i] == ')';
    var j :| 0 <= j < |rest| && rest[j] == ':';
    assert line[|head| + 1 + i] == ')';
    assert line[|head| + 1 + j] == ':';
  }

  /** The text before the header's first '(' is "def", a space and the name. */
  lemma HeaderBeforeParen(name: string, rest: string)
    requires '(' !in name
    ensures Split("def " + name + "(" + rest, '(')[0] == "def" + [' '] + name
  {
    var head := "def " + name;
    assert "def " + name + "(" + rest == head + ['('] + rest;
    assert '(' !in head by {
      assert forall i :: 4 <= i < |head| ==> head[i] == name[i - 4];
    }
    SplitAtFirst(head, '(', rest);
    assert head == "def" + [' '] + name;
  }
}
