// The helpers of the driver that build output text: placing a line in the
// output buffer, wrapping a header declaration in the text its attributes
// ask for, and reading the command-line arguments (src/main.rs).

module MainOutput {
  import opened Wrappers
  import opened Text
  import opened AttributeLists

  // ----- output lines -----

  /**
   * The buffer after `insert_output_line`: padded with empty lines until
   * `lineNumber` is a line of it; an empty text only pads. Otherwise the
   * text replaces the line (`clear`) or is appended to it, after one space
   * when the line already holds something. No other line changes.
   */
  function Inserted(lines: seq<string>, line: string, lineNumber: nat, clear: bool): (r: seq<string>)
    ensures |r| == if lineNumber < |lines| then |lines| else lineNumber + 1
    ensures forall i :: 0 <= i < |r| && i != lineNumber ==> r[i] == if i < |lines| then lines[i] else ""
    ensures var before := if lineNumber < |lines| then lines[lineNumber] else "";
      r[lineNumber] ==
        if line == "" then before
        else if clear then line
        else if before == "" then line
        else before + " " + line
  {
    var padded := if lineNumber < |lines| then lines else lines + seq(lineNumber + 1 - |lines|, _ => "");
    if line == "" then padded
    else padded[lineNumber := if clear then line else if padded[lineNumber] == "" then line else padded[lineNumber] + " " + line]
  }

  /** `insert_output_line`, on the buffer it is given. */
  method InsertOutputLine(lines: seq<string>, line: string, lineNumber: nat, clear: bool) returns (r: seq<string>)
    ensures r == Inserted(lines, line, lineNumber, clear)
  {
    r := lines;
    while lineNumber >= |r|
      invariant |lines| <= |r| <= if lineNumber < |lines| then |lines| else lineNumber + 1
      invariant forall i :: 0 <= i < |r| ==> r[i] == if i < |lines| then lines[i] else ""
      decreases lineNumber + 1 - |r|
    {
      r := r + [""];
    }
    ghost var padded := if lineNumber < |lines| then lines else lines + seq(lineNumber + 1 - |lines|, _ => "");
    assert r == padded;
    if line == "" {
      return;
    }
    var target := r[lineNumber];
    if target != "" {
      target := target + " ";
    }
    if !clear {
      assert [] + line == line;
      target := target + line;
    } else {
      target := line;
    }
    r := r[lineNumber := target];
    assert r == padded[lineNumber := if clear then line else if padded[lineNumber] == "" then line else padded[lineNumber] + " " + line];
  }

  // ----- header declarations -----

  /** The text `get_configure_declaration_with_attributes` puts before the declaration. */
  function PrependBlock(prepend: seq<string>): string {
    if prepend == [] then "" else Join(prepend, "\n") + "\n"
  }

  /** The text it puts after the declaration and its semicolon. */
  function AppendBlock(append: seq<string>): string {
    if append == [] then "" else "\n" + Join(append, "\n")
  }

  /**
   * `get_configure_declaration_with_attributes`: whether the declaration is
   * "Isolated", and its text: the "DeclarePrepend" parameters, one per
   * line, then the declaration with its semicolon when asked for, then the
   * "DeclareAppend" parameters, each on a line of its own.
   */
  function ConfiguredDeclaration(declaration: string, attrs: Attributes, content: string, semicolon: bool): (r: (bool, string))
    requires attrs.data.Some? ==> AllWithin(attrs.data.value, content)
    ensures r.0 <==> Has(attrs, "Isolated")
    ensures var decl := declaration + (if semicolon then ";" else "");
      var pre := PrependBlock(ParameterTexts(attrs, "DeclarePrepend", content));
      var post := AppendBlock(ParameterTexts(attrs, "DeclareAppend", content));
      |r.1| == |pre| + |decl| + |post| && OccursAt(r.1, decl, |pre|) &&
      r.1[..|pre|] == pre && r.1[|pre| + |decl|..] == post
  {
    var pre := PrependBlock(ParameterTexts(attrs, "DeclarePrepend", content));
    var decl := declaration + (if semicolon then ";" else "");
    var post := AppendBlock(ParameterTexts(attrs, "DeclareAppend", content));
    ThreePieces(pre, decl, post);
    (Has(attrs, "Isolated"), pre + decl + post)
  }

  /** Without attributes a declaration is emitted as it is, with its semicolon, and not isolated. */
  lemma UnattributedDeclaration(declaration: string, content: string, semicolon: bool)
    ensures ConfiguredDeclaration(declaration, Attributes(None), content, semicolon) ==
      (false, declaration + (if semicolon then ";" else ""))
  {
    var r := ConfiguredDeclaration(declaration, Attributes(None), content, semicolon).1;
    var decl := declaration + (if semicolon then ";" else "");
    assert |r| == |decl|;
    assert r == r[0..|decl|];
  }

  /**
   * `configure_declaration_with_attributes`: the configured text goes to
   * the isolated list when the declaration is "Isolated", and to the
   * normal list otherwise; the other list is left as it was.
   */
  method ConfigureDeclaration(declarations: seq<string>, isolatedDeclarations: seq<string>, declaration: string, attrs: Attributes, content: string, semicolon: bool)
    returns (normal: seq<string>, isolated: seq<string>)
    requires attrs.data.Some? ==> AllWithin(attrs.data.value, content)
    ensures var text := ConfiguredDeclaration(declaration, attrs, content, semicolon).1;
      if Has(attrs, "Isolated") then normal == declarations && isolated == isolatedDeclarations + [text]
      else normal == declarations + [text] && isolated == isolatedDeclarations
  {
    var (isIsolated, text) := ConfiguredDeclaration(declaration, attrs, content, semicolon);
    normal, isolated := declarations, isolatedDeclarations;
    if isIsolated {
      isolated := isolated + [text];
    } else {
      normal := normal + [text];
    }
  }

  // ----- command-line arguments -----

  /** The end of the run of word characters from `i`. */
  function WordEnd(s: string, i: nat): (r: nat)
    requires i <= |s|
    ensures i <= r <= |s| && (r == |s| || !IsWordChar(s[r]))
    ensures forall k :: i <= k < r ==> IsWordChar(s[k])
    decreases |s| - i
  {
    if i < |s| && IsWordChar(s[i]) then WordEnd(s, i + 1) else i
  }

  /**
   * The captures of `^--(\w[\w\d]*):(.*)$` on an argument: a word after
   * "--", a colon right after it, and a value with no newline.
   */
  function ArgumentCaptures(arg: string): (r: Option<(string, string)>)
    ensures r.Some? ==> "--" + r.value.0 + ":" + r.value.1 == arg
    ensures r.Some? ==> |r.value.0| > 0 && (forall k :: 0 <= k < |r.value.0| ==> IsWordChar(r.value.0[k])) && '\n' !in r.value.1
  {
    if |arg| < 3 || arg[..2] != "--" || !IsWordChar(arg[2]) then None
    else
      var j := WordEnd(arg, 2);
      if j < |arg| && arg[j] == ':' && '\n' !in arg[j + 1..] then
        assert "--" + arg[2..j] + ":" + arg[j + 1..] == arg[..2] + arg[2..j] + arg[j..j + 1] + arg[j + 1..];
        assert arg[..2] + arg[2..j] + arg[j..j + 1] + arg[j + 1..] == arg;
        Some((arg[2..j], arg[j + 1..]))
      else None
  }

  /** A word, a colon and a value without newlines are captured back as that key and value. */
  lemma CapturesRoundTrip(key: string, value: string)
    requires |key| > 0 && forall k :: 0 <= k < |key| ==> IsWordChar(key[k])
    requires '\n' !in value
    ensures ArgumentCaptures("--" + key + ":" + value) == Some((key, value))
  {
    var arg := "--" + key + ":" + value;
    assert forall k :: 2 <= k < 2 + |key| ==> arg[k] == key[k - 2];
    WordEndOfRun(arg, 2, 2 + |key|);
    assert arg[2..2 + |key|] == key;
    assert arg[2 + |key| + 1..] == value;
  }

  /** Over a run of word characters that stops at `j`, the run ends at `j`. */
  lemma {:induction false} WordEndOfRun(s: string, i: nat, j: nat)
    requires i <= j < |s| && !IsWordChar(s[j])
    requires forall k :: i <= k < j ==> IsWordChar(s[k])
    ensures WordEnd(s, i) == j
    decreases j - i
  {
    if i < j {
      WordEndOfRun(s, i + 1, j);
    }
  }

  /**
   * What one argument contributes: ignored (with a warning) unless it is
   * at least 3 long and starts with "--"; a key and value when the pattern
   * captures them; otherwise the whole text after "--" as a key alone.
   */
  function ArgumentEntry(arg: string): (r: Option<(string, Option<string>)>)
    ensures r.None? <==> |arg| < 3 || !StartsWith(arg, "--")
    ensures r.Some? && r.value.1.Some? ==> "--" + r.value.0 + ":" + r.value.1.value == arg
    ensures r.Some? && r.value.1.None? ==> "--" + r.value.0 == arg
  {
    if |arg| >= 3 && arg[..2] == "--" then
      match ArgumentCaptures(arg)
      case Some((key, value)) => Some((key, Some(value)))
      case None =>
        assert arg == arg[..2] + arg[2..];
        Some((arg[2..], None))
    else None
  }

  /** The map after one argument's entry: the key gets a list, and the value is appended to it. */
  function WithEntry(m: map<string, seq<string>>, entry: Option<(string, Option<string>)>): map<string, seq<string>> {
    match entry
    case None => m
    case Some((key, value)) =>
      var values := if key in m then m[key] else [];
      m[key := if value.Some? then values + [value.value] else values]
  }

  /** The map the arguments `xs` build, in order. */
  function Collected(xs: seq<string>): map<string, seq<string>>
    decreases |xs|
  {
    if xs == [] then map[] else WithEntry(Collected(xs[..|xs| - 1]), ArgumentEntry(xs[|xs| - 1]))
  }

  /** The values given for `key`, in the order they appear. */
  function ValuesFor(xs: seq<string>, key: string): seq<string>
    decreases |xs|
  {
    if xs == [] then []
    else
      var e := ArgumentEntry(xs[|xs| - 1]);
      ValuesFor(xs[..|xs| - 1], key) + (if e.Some? && e.value.0 == key && e.value.1.Some? then [e.value.1.value] else [])
  }

  /**
   * A key is in the map exactly when some argument names it, and its list
   * holds the values given for it, in order.
   */
  lemma {:induction false} CollectedMeaning(xs: seq<string>, key: string)
    ensures key in Collected(xs) <==> exists i :: 0 <= i < |xs| && ArgumentEntry(xs[i]).Some? && ArgumentEntry(xs[i]).value.0 == key
    ensures key in Collected(xs) ==> Collected(xs)[key] == ValuesFor(xs, key)
    decreases |xs|
  {
    if xs != [] {
      var init := xs[..|xs| - 1];
      var e := ArgumentEntry(xs[|xs| - 1]);
      CollectedMeaning(init, key);
      assert Collected(xs) == WithEntry(Collected(init), e);
      assert ValuesFor(xs, key) == ValuesFor(init, key) + (if e.Some? && e.value.0 == key && e.value.1.Some? then [e.value.1.value] else []);
      WithEntryKey(Collected(init), e, key);
      if key !in Collected(init) {
        assert ValuesFor(init, key) == [] by {
          NoEntryNoValues(init, key);
        }
      }
      forall i | 0 <= i < |init|
        ensures xs[i] == init[i]
      {
      }
      if exists i :: 0 <= i < |xs| && ArgumentEntry(xs[i]).Some? && ArgumentEntry(xs[i]).value.0 == key {
        var i :| 0 <= i < |xs| && ArgumentEntry(xs[i]).Some? && ArgumentEntry(xs[i]).value.0 == key;
        if i < |init| {
          assert init[i] == xs[i];
        }
      }
    }
  }

  /** One entry adds its key, and appends its value, if any, to that key's list; other keys keep theirs. */
  lemma WithEntryKey(m: map<string, seq<string>>, e: Option<(string, Option<string>)>, key: string)
    ensures key in WithEntry(m, e) <==> key in m || (e.Some? && e.value.0 == key)
    ensures key in WithEntry(m, e) ==>
      WithEntry(m, e)[key] == (if key in m then m[key] else []) + (if e.Some? && e.value.0 == key && e.value.1.Some? then [e.value.1.value] else [])
  {
  }

  /** With no argument naming `key`, no value is given for it. */
  lemma {:induction false} NoEntryNoValues(xs: seq<string>, key: string)
    requires forall i :: 0 <= i < |xs| ==> !(ArgumentEntry(xs[i]).Some? && ArgumentEntry(xs[i]).value.0 == key)
    ensures ValuesFor(xs, key) == []
    decreases |xs|
  {
    if xs != [] {
      var init := xs[..|xs| - 1];
      assert forall i :: 0 <= i < |init| ==> init[i] == xs[i];
      NoEntryNoValues(init, key);
    }
  }

  /** `parse_arguments`: the first argument (the program) is skipped. */
  function Arguments(args: seq<string>): map<string, seq<string>> {
    if args == [] then map[] else Collected(args[1..])
  }

  /** `parse_arguments`, over the argument list. */
  method ParseArguments(args: seq<string>) returns (result: map<string, seq<string>>)
    ensures result == Arguments(args)
  {
    result := map[];
    if args == [] {
      return;
    }
    for i := 1 to |args|
      invariant result == Collected(args[1..i])
    {
      assert args[1..i + 1][..i - 1] == args[1..i];
      var entry := ArgumentEntry(args[i]);
      if entry.Some? {
        var (key, value) := entry.value;
        if key !in result {
          result := result[key := []];
        }
        if value.Some? {
          result := result[key := result[key] + [value.value]];
        }
      }
    }
    assert args[1..|args|] == args[1..];
  }

  /** The program name never counts, whatever it is. */
  lemma ProgramNameIgnored(program: string, rest: seq<string>)
    ensures Arguments([program] + rest) == Collected(rest)
  {
    assert ([program] + rest)[1..] == rest;
  }
}
