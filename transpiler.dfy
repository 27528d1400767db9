// The header declaration lists and how they are written out, and the
// placement of variables, includes and imports in the C++ source while the
// declarations of a file are transpiled (src/transpiler.rs).

module Transpilers {
  import opened Wrappers
  import opened Text
  import opened Expressions
  import opened AttributeLists
  import opened IncludeDeclarations
  import opened ImportDeclarations
  import opened MainOutput
  import opened InjectDeclarations
  import opened Contexts
  import opened ModuleAttributeDeclarations
  import VariableTypes
  import TypingContexts

  // ----- line splitting -----

  predicate IsBreak(c: char) {
    c == '\n' || c == '\r'
  }

  /** The first line break at or after `i`, or the end of the text. */
  function BreakAt(s: string, i: nat): (r: nat)
    requires i <= |s|
    ensures i <= r <= |s| && (r < |s| ==> IsBreak(s[r]))
    ensures forall k :: i <= k < r ==> !IsBreak(s[k])
    decreases |s| - i
  {
    if i == |s| || IsBreak(s[i]) then i else BreakAt(s, i + 1)
  }

  /** How long the break at `i` is: the pairs "\n\r" and "\r\n" are one break. */
  function BreakLength(s: string, i: nat): (r: nat)
    requires i < |s| && IsBreak(s[i])
    ensures 1 <= r <= 2 && i + r <= |s|
  {
    if i + 1 < |s| && ((s[i] == '\n' && s[i + 1] == '\r') || (s[i] == '\r' && s[i + 1] == '\n')) then 2 else 1
  }

  /**
   * `LINE_SPLIT.split`: the text between the breaks of the regex
   * `\n\r|\r\n|\r|\n`, as many pieces as breaks plus one, none of them
   * holding a break.
   */
  function SplitLines(s: string): (r: seq<string>)
    ensures |r| >= 1
    ensures forall k, j :: 0 <= k < |r| && 0 <= j < |r[k]| ==> !IsBreak(r[k][j])
    decreases |s|
  {
    var b := BreakAt(s, 0);
    if b == |s| then [s]
    else [s[..b]] + SplitLines(s[b + BreakLength(s, b)..])
  }

  /** Splitting a text that uses only "\n" and joining the pieces with "\n" gives the text back. */
  lemma {:induction false} SplitJoinRoundTrip(s: string)
    requires forall k :: 0 <= k < |s| ==> s[k] != '\r'
    ensures Join(SplitLines(s), "\n") == s
    decreases |s|
  {
    var b := BreakAt(s, 0);
    if b < |s| {
      assert s[b] == '\n';
      var tail := s[b + 1..];
      assert BreakLength(s, b) == 1;
      assert SplitLines(s) == [s[..b]] + SplitLines(tail);
      assert forall k :: 0 <= k < |tail| ==> tail[k] == s[b + 1 + k];
      SplitJoinRoundTrip(tail);
      JoinCons(s[..b], SplitLines(tail), "\n");
      assert s == s[..b] + "\n" + tail;
    }
  }

  /** A text without breaks is one line. */
  lemma OneLine(s: string)
    requires forall k :: 0 <= k < |s| ==> !IsBreak(s[k])
    ensures SplitLines(s) == [s]
  {
  }

  // ----- pushing declarations -----

  /** `tab_count` tabs, as `export_to_lines` builds them. */
  function Tabs(tabCount: nat): (r: string)
    ensures |r| == tabCount && forall i :: 0 <= i < tabCount ==> r[i] == '\t'
  {
    Repeat('\t', tabCount)
  }

  /** One line of an indented declaration: blank lines are emptied, the others take the tabs. */
  function Indented(line: string, tabs: string): string {
    if Trim(line) == "" then "" else tabs + line
  }

  /**
   * The lines `push_line` adds for the declaration `d`: the whole text as
   * one line when there is no indentation, otherwise each of its lines
   * indented.
   */
  function Pushed(d: string, tabCount: nat): seq<string> {
    if tabCount == 0 then [d] else IndentedEach(SplitLines(d), Tabs(tabCount))
  }

  /** Each of `pieces` indented by `tabs`. */
  function IndentedEach(pieces: seq<string>, tabs: string): seq<string> {
    seq(|pieces|, k requires 0 <= k < |pieces| => Indented(pieces[k], tabs))
  }

  /**
   * An indented line that is not blank is the line behind exactly
   * `tabCount` tabs; a blank one is empty.
   */
  lemma IndentedLines(d: string, tabCount: nat, k: nat)
    requires tabCount > 0 && k < |SplitLines(d)|
    ensures var line := SplitLines(d)[k];
      var out := Pushed(d, tabCount)[k];
      if Trim(line) == "" then out == "" else |out| == tabCount + |line| && out[..tabCount] == Tabs(tabCount) && out[tabCount..] == line
  {
  }

  /** `push_line`. */
  method PushLine(d: string, lines: seq<string>, tabCount: nat, tabs: string) returns (out: seq<string>)
    requires tabs == (if tabCount > 0 then Tabs(tabCount) else "")
    ensures out == lines + Pushed(d, tabCount)
  {
    if tabCount > 0 {
      out := PushIndented(lines, SplitLines(d), tabs);
    } else {
      out := lines + [d];
    }
  }

  /** The loop of `push_line`: each line of the declaration, indented unless blank. */
  method PushIndented(lines: seq<string>, pieces: seq<string>, tabs: string) returns (out: seq<string>)
    ensures out == lines + IndentedEach(pieces, tabs)
  {
    out := lines;
    ghost var pushed := IndentedEach(pieces, tabs);
    for i := 0 to |pieces|
      invariant out == lines + pushed[..i]
    {
      if Trim(pieces[i]) == "" {
        out := out + [""];
      } else {
        out := out + [tabs + pieces[i]];
      }
      assert pushed[..i + 1] == pushed[..i] + [pushed[i]];
    }
    assert pushed[..|pieces|] == pushed;
  }

  /** What `export_isolated` adds: each declaration followed by a blank line. */
  function IsolatedLines(declares: seq<string>, tabCount: nat): seq<string>
    decreases |declares|
  {
    if declares == [] then []
    else IsolatedLines(declares[..|declares| - 1], tabCount) + Pushed(declares[|declares| - 1], tabCount) + [""]
  }

  /** What `export_normal` adds: the declarations, then one blank line if there were any. */
  function NormalLines(declares: seq<string>, tabCount: nat): seq<string> {
    if declares == [] then [] else Concat(declares, tabCount) + [""]
  }

  /** The lines of the declarations, one after another. */
  function Concat(declares: seq<string>, tabCount: nat): seq<string>
    decreases |declares|
  {
    if declares == [] then []
    else Concat(declares[..|declares| - 1], tabCount) + Pushed(declares[|declares| - 1], tabCount)
  }

  /**
   * Without indentation, isolated declarations alternate with blank lines:
   * declaration `i` is line `2i` and line `2i + 1` is blank.
   */
  lemma {:induction false} IsolatedAlternates(declares: seq<string>)
    ensures |IsolatedLines(declares, 0)| == 2 * |declares|
    ensures forall i :: 0 <= i < |declares| ==> IsolatedLines(declares, 0)[2 * i] == declares[i] && IsolatedLines(declares, 0)[2 * i + 1] == ""
    decreases |declares|
  {
    if declares != [] {
      var init := declares[..|declares| - 1];
      IsolatedAlternates(init);
      assert forall i :: 0 <= i < |init| ==> init[i] == declares[i];
    }
  }

  /** Without indentation, normal declarations are their lines followed by one blank line, or nothing. */
  lemma {:induction false} NormalThenBlank(declares: seq<string>)
    ensures declares == [] ==> NormalLines(declares, 0) == []
    ensures declares != [] ==> NormalLines(declares, 0) == declares + [""]
  {
    ConcatUnindented(declares);
  }

  lemma {:induction false} ConcatUnindented(declares: seq<string>)
    ensures Concat(declares, 0) == declares
    decreases |declares|
  {
    if declares != [] {
      ConcatUnindented(declares[..|declares| - 1]);
      assert declares[..|declares| - 1] + [declares[|declares| - 1]] == declares;
    }
  }

  lemma IsolatedSnoc(declares: seq<string>, i: nat, tabCount: nat)
    requires i < |declares|
    ensures IsolatedLines(declares[..i + 1], tabCount) == IsolatedLines(declares[..i], tabCount) + Pushed(declares[i], tabCount) + [""]
  {
    var upTo := declares[..i + 1];
    assert upTo[..|upTo| - 1] == declares[..i];
  }

  lemma ConcatSnoc(declares: seq<string>, i: nat, tabCount: nat)
    requires i < |declares|
    ensures Concat(declares[..i + 1], tabCount) == Concat(declares[..i], tabCount) + Pushed(declares[i], tabCount)
  {
    var upTo := declares[..i + 1];
    assert upTo[..|upTo| - 1] == declares[..i];
  }

  lemma Regroup2(lines: seq<string>, a: seq<string>, b: seq<string>)
    ensures lines + a + b == lines + (a + b)
  {
  }

  lemma Regroup3(lines: seq<string>, a: seq<string>, b: seq<string>, c: seq<string>)
    ensures lines + a + b + c == lines + (a + b + c)
  {
  }

  /** `export_isolated`. */
  method ExportIsolated(declares: seq<string>, lines: seq<string>, tabCount: nat, tabs: string) returns (out: seq<string>)
    requires tabs == (if tabCount > 0 then Tabs(tabCount) else "")
    ensures out == lines + IsolatedLines(declares, tabCount)
  {
    out := lines;
    for i := 0 to |declares|
      invariant out == lines + IsolatedLines(declares[..i], tabCount)
    {
      IsolatedSnoc(declares, i, tabCount);
      out := PushLine(declares[i], out, tabCount, tabs);
      out := out + [""];
      Regroup3(lines, IsolatedLines(declares[..i], tabCount), Pushed(declares[i], tabCount), [""]);
    }
    assert declares[..|declares|] == declares;
  }

  /** `export_normal`. */
  method ExportNormal(declares: seq<string>, lines: seq<string>, tabCount: nat, tabs: string) returns (out: seq<string>)
    requires tabs == (if tabCount > 0 then Tabs(tabCount) else "")
    ensures out == lines + NormalLines(declares, tabCount)
  {
    out := lines;
    if declares != [] {
      for i := 0 to |declares|
        invariant out == lines + Concat(declares[..i], tabCount)
      {
        ConcatSnoc(declares, i, tabCount);
        out := PushLine(declares[i], out, tabCount, tabs);
        Regroup2(lines, Concat(declares[..i], tabCount), Pushed(declares[i], tabCount));
      }
      assert declares[..|declares|] == declares;
      out := out + [""];
      Regroup2(lines, Concat(declares, tabCount), [""]);
      assert NormalLines(declares, tabCount) == Concat(declares, tabCount) + [""];
    } else {
      assert lines + NormalLines(declares, tabCount) == lines;
    }
  }

  /** A group adds lines exactly when it is not empty. */
  lemma {:induction false} GroupsEmptyIff(declares: seq<string>, tabCount: nat)
    ensures IsolatedLines(declares, tabCount) == [] <==> declares == []
    ensures NormalLines(declares, tabCount) == [] <==> declares == []
  {
    if declares != [] {
      assert |IsolatedLines(declares, tabCount)| > 0;
    }
  }

  // ----- the declaration lists -----

  /**
   * The contents of a `VarFuncDeclarations`: the header declarations of a
   * file or of one section of a class, each kind with a normal and an
   * isolated list.
   */
  datatype DeclarationLists = DeclarationLists(variableDeclarations: seq<string>, functionDeclarations: seq<string>,
                                       variableDeclarationsIsolated: seq<string>, functionDeclarationsIsolated: seq<string>)
  {
    /** `is_empty`. */
    predicate IsEmpty() {
      variableDeclarationsIsolated == [] && variableDeclarations == [] &&
      functionDeclarationsIsolated == [] && functionDeclarations == []
    }

    /**
     * The lines `export_to_lines` writes: variables before functions when
     * `variableFirst`, functions first otherwise; in each kind the isolated
     * declarations come before the normal ones.
     */
    function Exported(tabCount: nat, variableFirst: bool): seq<string> {
      var vars := IsolatedLines(variableDeclarationsIsolated, tabCount) + NormalLines(variableDeclarations, tabCount);
      var funcs := IsolatedLines(functionDeclarationsIsolated, tabCount) + NormalLines(functionDeclarations, tabCount);
      if variableFirst then vars + funcs else funcs + vars
    }

    /** Exporting writes nothing exactly when the lists are empty, in either order. */
    lemma ExportedEmptyIff(tabCount: nat, variableFirst: bool)
      ensures Exported(tabCount, variableFirst) == [] <==> IsEmpty()
    {
      GroupsEmptyIff(variableDeclarationsIsolated, tabCount);
      GroupsEmptyIff(variableDeclarations, tabCount);
      GroupsEmptyIff(functionDeclarationsIsolated, tabCount);
      GroupsEmptyIff(functionDeclarations, tabCount);
    }

    /** Either order writes the same two blocks, only swapped. */
    lemma ExportOrders(tabCount: nat)
      ensures exists vars, funcs :: Exported(tabCount, true) == vars + funcs && Exported(tabCount, false) == funcs + vars
    {
      var vars := IsolatedLines(variableDeclarationsIsolated, tabCount) + NormalLines(variableDeclarations, tabCount);
      var funcs := IsolatedLines(functionDeclarationsIsolated, tabCount) + NormalLines(functionDeclarations, tabCount);
      assert Exported(tabCount, true) == vars + funcs;
    }

    /** `export_to_lines`, onto the lines it is given. */
    method ExportToLines(lines: seq<string>, tabCount: nat, variableFirst: bool) returns (out: seq<string>)
      ensures out == lines + Exported(tabCount, variableFirst)
    {
      var tabs := if tabCount > 0 then Tabs(tabCount) else "";
      if variableFirst {
        out := ExportIsolated(variableDeclarationsIsolated, lines, tabCount, tabs);
        out := ExportNormal(variableDeclarations, out, tabCount, tabs);
        out := ExportIsolated(functionDeclarationsIsolated, out, tabCount, tabs);
        out := ExportNormal(functionDeclarations, out, tabCount, tabs);
        Regroup(lines, IsolatedLines(variableDeclarationsIsolated, tabCount), NormalLines(variableDeclarations, tabCount),
          IsolatedLines(functionDeclarationsIsolated, tabCount), NormalLines(functionDeclarations, tabCount));
      } else {
        out := ExportIsolated(functionDeclarationsIsolated, lines, tabCount, tabs);
        out := ExportNormal(functionDeclarations, out, tabCount, tabs);
        out := ExportIsolated(variableDeclarationsIsolated, out, tabCount, tabs);
        out := ExportNormal(variableDeclarations, out, tabCount, tabs);
        Regroup(lines, IsolatedLines(functionDeclarationsIsolated, tabCount), NormalLines(functionDeclarations, tabCount),
          IsolatedLines(variableDeclarationsIsolated, tabCount), NormalLines(variableDeclarations, tabCount));
      }
    }
  }

  /**
   * `VarFuncDeclarations`, the lists the transpiler pushes declarations
   * onto while it walks a file.
   */
  class VarFuncDeclarations {
    var variableDeclarations: seq<string>
    var functionDeclarations: seq<string>
    var variableDeclarationsIsolated: seq<string>
    var functionDeclarationsIsolated: seq<string>

    constructor ()
      ensures Contents() == DeclarationLists([], [], [], [])
    {
      variableDeclarations := [];
      functionDeclarations := [];
      variableDeclarationsIsolated := [];
      functionDeclarationsIsolated := [];
    }

    /** The four lists as they stand. */
    function Contents(): DeclarationLists
      reads this
    {
      DeclarationLists(variableDeclarations, functionDeclarations, variableDeclarationsIsolated, functionDeclarationsIsolated)
    }
  }

  lemma Regroup(lines: seq<string>, a: seq<string>, b: seq<string>, c: seq<string>, d: seq<string>)
    ensures lines + a + b + c + d == lines + ((a + b) + (c + d))
  {
  }

  // ----- placement in the source file -----

  /**
   * The output line of a module variable: its own source line when lines
   * are aligned; otherwise the end of the buffer, one further only when
   * the variable's line is at least 2 past the end of the previous
   * declaration.
   */
  function VariableLine(alignLines: bool, varLine: nat, endLine: nat, outputLength: nat): (r: nat)
    ensures alignLines ==> r == varLine
    ensures !alignLines ==> (r == outputLength + 1 <==> endLine <= varLine && varLine - endLine >= 2)
    ensures !alignLines ==> r == outputLength || r == outputLength + 1
  {
    if alignLines then varLine
    else if endLine > varLine || varLine - endLine < 2 then outputLength
    else outputLength + 1
  }

  /** The `#include` line of an included path: quoted when local, in angle brackets otherwise. */
  function IncludeLine(path: string, incType: IncludeType): (r: string)
    ensures incType == Local ==> r == "#include \"" + path + "\""
    ensures incType == System ==> r == "#include <" + path + ">"
  {
    "#include " + (if incType == Local then "\"" + path + "\"" else "<" + path + ">")
  }

  /** The `#include` line of an imported module's header. */
  function ImportLine(path: string, hppHeaders: bool): (r: string)
    ensures r == "#include \"" + path + (if hppHeaders then ".hpp\"" else ".h\"")
  {
    if hppHeaders then "#include \"" + path + ".hpp\"" else "#include \"" + path + ".h\""
  }

  /**
   * A class of the header: its opening text, the constructor and public
   * declarations, and the private ones, each indented one tab.
   */
  datatype ClassEntry = ClassEntry(content: string, constructs: DeclarationLists, publics: DeclarationLists, privates: DeclarationLists)

  /**
   * The state of `Transpiler` that the routing of declarations changes:
   * the C++ source lines, the header declaration lists, where the last
   * declaration ended, and the header's include lists.
   */
  class Transpiler {
    var outputLines: seq<string>
    const declarations: VarFuncDeclarations
    var endLine: nat
    var headerIncludeLine: Option<nat>
    var handlingModuleAttributes: bool
    var headerSystemIncludes: seq<string>
    var headerLocalIncludes: seq<string>
    /** The classes of the file, in order, for the header. */
    var classDeclarations: seq<ClassEntry>
    /** The modules imported so far (the source hands each to the module typing context). */
    var importedModules: seq<string>
    const file: string

    /** `Transpiler::new`. */
    constructor (file: string)
      ensures this.file == file && outputLines == [] && endLine == 0 && headerIncludeLine.None? && handlingModuleAttributes
      ensures headerSystemIncludes == [] && headerLocalIncludes == [] && importedModules == [] && classDeclarations == []
      ensures fresh(declarations) && declarations.Contents().IsEmpty()
    {
      this.file := file;
      outputLines := [];
      declarations := new VarFuncDeclarations();
      endLine := 0;
      headerIncludeLine := None;
      handlingModuleAttributes := true;
      headerSystemIncludes := [];
      headerLocalIncludes := [];
      importedModules := [];
      classDeclarations := [];
    }

    /**
     * A module-level variable: its C++ text `cpp` goes to its output line,
     * the end line becomes its source line, and unless it is marked
     * "NoHeader" an `extern` declaration goes to the header lists.
     */
    method RouteModuleVariable(cpp: string, name: string, typeCpp: string, varLine: nat, alignLines: bool, attrs: Attributes, content: string)
      requires attrs.data.Some? ==> AllWithin(attrs.data.value, content)
      modifies this, declarations
      ensures outputLines == Inserted(old(outputLines), cpp, VariableLine(alignLines, varLine, old(endLine), |old(outputLines)|), false)
      ensures endLine == varLine
      ensures var text := ConfiguredDeclaration("extern " + typeCpp + " " + name, attrs, content, true).1;
        var header := !Has(attrs, "NoHeader");
        var isolated := Has(attrs, "Isolated");
        declarations.variableDeclarations == old(declarations.variableDeclarations) + (if header && !isolated then [text] else []) &&
        declarations.variableDeclarationsIsolated == old(declarations.variableDeclarationsIsolated) + (if header && isolated then [text] else [])
      ensures declarations.functionDeclarations == old(declarations.functionDeclarations)
      ensures declarations.functionDeclarationsIsolated == old(declarations.functionDeclarationsIsolated)
      ensures headerSystemIncludes == old(headerSystemIncludes) && headerLocalIncludes == old(headerLocalIncludes)
      ensures importedModules == old(importedModules) && headerIncludeLine == old(headerIncludeLine)
      ensures classDeclarations == old(classDeclarations) && handlingModuleAttributes == old(handlingModuleAttributes)
    {
      var line := VariableLine(alignLines, varLine, endLine, |outputLines|);
      outputLines := InsertOutputLine(outputLines, cpp, line, false);
      endLine := varLine;
      var header := HasAttribute(attrs, "NoHeader");
      if !header {
        var normal, isolated := ConfigureDeclaration(declarations.variableDeclarations, declarations.variableDeclarationsIsolated,
          "extern " + typeCpp + " " + name, attrs, content, true);
        declarations.variableDeclarations := normal;
        declarations.variableDeclarationsIsolated := isolated;
      }
    }

    /**
     * An include: for the header it joins the local or the system list;
     * for the source its `#include` line goes to its own line when lines
     * are aligned, else to the end of the buffer.
     */
    method RouteInclude(inc: IncludeDecl, alignLines: bool)
      modifies this
      ensures inc.location == Header ==> outputLines == old(outputLines)
      ensures inc.location == Header && inc.incType == Local ==> headerLocalIncludes == old(headerLocalIncludes) + [inc.path]
      ensures inc.location == Header && inc.incType == Local ==> headerSystemIncludes == old(headerSystemIncludes)
      ensures inc.location == Header && inc.incType == System ==> headerSystemIncludes == old(headerSystemIncludes) + [inc.path]
      ensures inc.location == Header && inc.incType == System ==> headerLocalIncludes == old(headerLocalIncludes)
      ensures inc.location == Source ==> outputLines == Inserted(old(outputLines), IncludeLine(inc.path, inc.incType), if alignLines then inc.line else |old(outputLines)|, false)
      ensures inc.location == Source ==> headerLocalIncludes == old(headerLocalIncludes) && headerSystemIncludes == old(headerSystemIncludes)
      ensures endLine == old(endLine) && importedModules == old(importedModules) && headerIncludeLine == old(headerIncludeLine)
      ensures classDeclarations == old(classDeclarations) && handlingModuleAttributes == old(handlingModuleAttributes)
    {
      if inc.location == Header {
        if inc.incType == Local {
          headerLocalIncludes := headerLocalIncludes + [inc.path];
        } else {
          headerSystemIncludes := headerSystemIncludes + [inc.path];
        }
      } else {
        var line := if alignLines then inc.line else |outputLines|;
        outputLines := InsertOutputLine(outputLines, IncludeLine(inc.path, inc.incType), line, false);
      }
    }

    /**
     * An import of a known module registers it and writes the `#include`
     * of its header; an unknown one changes nothing and is reported as
     * "Import Not Found" on the line after the import, over its path.
     */
    method RouteImport(imp: ImportDecl, alignLines: bool, moduleExists: bool, hppHeaders: bool) returns (error: Option<Diagnostic>)
      modifies this
      ensures moduleExists ==> error.None? && importedModules == old(importedModules) + [imp.path]
      ensures moduleExists ==> outputLines == Inserted(old(outputLines), ImportLine(imp.path, hppHeaders), if alignLines then imp.line else |old(outputLines)|, false)
      ensures !moduleExists ==> outputLines == old(outputLines) && importedModules == old(importedModules)
      ensures !moduleExists ==> error == Some(Diagnostic("Import Not Found", "could not find Tasty Fresh source file", Position(file, Some(imp.line + 1), 7, Some(7 + |imp.path|))))
      ensures endLine == old(endLine) && headerLocalIncludes == old(headerLocalIncludes) && headerSystemIncludes == old(headerSystemIncludes)
      ensures headerIncludeLine == old(headerIncludeLine) && classDeclarations == old(classDeclarations)
      ensures handlingModuleAttributes == old(handlingModuleAttributes)
    {
      if moduleExists {
        importedModules := importedModules + [imp.path];
        var line := if alignLines then imp.line else |outputLines|;
        outputLines := InsertOutputLine(outputLines, ImportLine(imp.path, hppHeaders), line, false);
        return None;
      }
      return Some(Diagnostic("Import Not Found", "could not find Tasty Fresh source file", Position(file, Some(imp.line + 1), 7, Some(7 + |imp.path|))));
    }

    /**
     * A class: its C++ text `classCpp` is wrapped as its attributes ask
     * (a blank line follows an isolated class), and it joins the header's
     * classes with the declaration lists its members filled.
     */
    method RouteClass(classCpp: string, attrs: Attributes, content: string,
                      constructs: DeclarationLists, publics: DeclarationLists, privates: DeclarationLists)
      requires attrs.data.Some? ==> AllWithin(attrs.data.value, content)
      modifies this`classDeclarations
      ensures classDeclarations == old(classDeclarations) + [ClassEntry(ClassContent(classCpp, attrs, content), constructs, publics, privates)]
    {
      var (isolated, text) := ConfiguredDeclaration(classCpp, attrs, content, false);
      if isolated {
        text := text + "\n";
      }
      classDeclarations := classDeclarations + [ClassEntry(text, constructs, publics, privates)];
    }

    /**
     * A module attribute is registered with the file's context; once
     * alignment is on, the header's `#include` goes to the attribute's line.
     */
    method RouteModuleAttribute(attr: ModuleAttributeDecl, context: Context)
      modifies this, context
      ensures context.alignLines == (old(context.alignLines) || attr.name == "TastyAlign")
      ensures headerIncludeLine == if context.alignLines then Some(attr.line) else old(headerIncludeLine)
      ensures outputLines == old(outputLines) && endLine == old(endLine) && importedModules == old(importedModules)
      ensures headerLocalIncludes == old(headerLocalIncludes) && headerSystemIncludes == old(headerSystemIncludes)
      ensures handlingModuleAttributes == old(handlingModuleAttributes) && classDeclarations == old(classDeclarations)
    {
      context.RegisterModuleAttribute(attr.name);
      if context.alignLines {
        headerIncludeLine := Some(attr.line);
      }
    }

    /** The first declaration that is not a module attribute ends their handling. */
    method EndModuleAttributes()
      modifies this
      ensures !handlingModuleAttributes
      ensures outputLines == old(outputLines) && endLine == old(endLine) && importedModules == old(importedModules)
      ensures headerLocalIncludes == old(headerLocalIncludes) && headerSystemIncludes == old(headerSystemIncludes)
      ensures headerIncludeLine == old(headerIncludeLine) && classDeclarations == old(classDeclarations)
    {
      handlingModuleAttributes := false;
    }

    /**
     * An injection: its text goes to the output line by line, from its own
     * line when lines are aligned, else from one line past the end of the
     * buffer, with blank lines then dropped.
     */
    method RouteInjection(inj: InjectDecl, content: string, alignLines: bool)
      requires inj.startIndex <= inj.endIndex <= |content|
      modifies this`outputLines
      ensures outputLines == InjectedFrom(old(outputLines), SplitLines(InjectionText(inj, content, alignLines)),
        if alignLines then inj.line else |old(outputLines)| + 1, alignLines)
    {
      var text := InjectionText(inj, content, alignLines);
      var pieces := SplitLines(text);
      var start: nat := if alignLines then inj.line else |outputLines| + 1;
      outputLines := PlaceInjection(outputLines, pieces, start, alignLines);
    }

    /** The state `parse_declarations` changes, with the file's context: its alignment flag and its module scopes. */
    function Snapshot(context: Context): Routing
      reads this, declarations, context, context.moduleTyping
    {
      Routing(outputLines, endLine, headerIncludeLine, handlingModuleAttributes, headerSystemIncludes, headerLocalIncludes,
        classDeclarations, importedModules, declarations.Contents(), context.alignLines, context.moduleTyping.knownData)
    }

    /**
     * One declaration of the first pass of `parse_declarations`: a variable
     * is routed and bound in the module typing context; anything else
     * waits for the second pass.
     */
    method RouteFirst(d: ModuleDecl, context: Context, content: string)
      requires WithinContent(d, content)
      modifies this, declarations, context.moduleTyping
      ensures Snapshot(context) == FirstStep(old(Snapshot(context)), d, content)
    {
      if d.VariableItem? {
        RouteModuleVariable(d.cpp, d.name, d.typeCpp, d.line, context.alignLines, d.attrs, content);
        var _ := context.moduleTyping.AddVariable(d.name, d.varType);
      }
    }

    /**
     * One declaration of the second pass: a module attribute is registered;
     * anything else ends the handling of module attributes and is routed by
     * its kind. An import of an unknown module yields its error.
     */
    method RouteSecond(d: ModuleDecl, context: Context, content: string, hppHeaders: bool) returns (error: Option<Diagnostic>)
      requires WithinContent(d, content)
      modifies this, context
      ensures Snapshot(context) == SecondStep(old(Snapshot(context)), d, content, hppHeaders)
      ensures error == ImportError(d, file)
    {
      error := None;
      if d.AttributeItem? {
        RouteModuleAttribute(d.attr, context);
        return;
      }
      if handlingModuleAttributes {
        EndModuleAttributes();
      }
      assert Snapshot(context) == old(Snapshot(context)).(handlingModuleAttributes := false);
      error := RouteKind(d, context, content, hppHeaders);
    }

    /** A declaration of the second pass that is not a module attribute, routed by its kind. */
    method RouteKind(d: ModuleDecl, context: Context, content: string, hppHeaders: bool) returns (error: Option<Diagnostic>)
      requires WithinContent(d, content) && !d.AttributeItem?
      modifies this
      ensures Snapshot(context) == KindRouted(old(Snapshot(context)), d, content, hppHeaders)
      ensures error == ImportError(d, file)
    {
      error := None;
      ghost var before := Snapshot(context);
      match d {
        case ClassItem(classCpp, attrs, constructs, publics, privates) =>
          RouteClass(classCpp, attrs, content, constructs, publics, privates);
          assert Snapshot(context) == before.(classDeclarations := before.classDeclarations + [ClassEntry(ClassContent(classCpp, attrs, content), constructs, publics, privates)]);
        case InjectionItem(inj) =>
          RouteInjection(inj, content, context.alignLines);
          assert Snapshot(context) == before.(outputLines := outputLines);
        case ImportItem(imp, moduleExists) =>
          error := RouteImportItem(d, context, content, hppHeaders);
        case IncludeItem(inc) =>
          RouteIncludeItem(d, context, content, hppHeaders);
        case _ =>
      }
    }

    /** An import, routed as `KindRouted` says. */
    method RouteImportItem(d: ModuleDecl, context: Context, content: string, hppHeaders: bool) returns (error: Option<Diagnostic>)
      requires d.ImportItem?
      modifies this
      ensures Snapshot(context) == KindRouted(old(Snapshot(context)), d, content, hppHeaders)
      ensures error == ImportError(d, file)
    {
      error := RouteImport(d.imp, context.alignLines, d.moduleExists, hppHeaders);
    }

    /** An include, routed as `KindRouted` says. */
    method RouteIncludeItem(d: ModuleDecl, context: Context, content: string, hppHeaders: bool)
      requires d.IncludeItem?
      modifies this
      ensures Snapshot(context) == KindRouted(old(Snapshot(context)), d, content, hppHeaders)
    {
      RouteInclude(d.inc, context.alignLines);
    }

    /**
     * `parse_declarations` at module level: the variables first, in order,
     * then every declaration in order for the module attributes and all
     * the other kinds. The errors are those of the imports of unknown
     * modules, in order.
     */
    method ParseDeclarations(decls: seq<ModuleDecl>, context: Context, content: string, hppHeaders: bool) returns (errors: seq<Diagnostic>)
      requires AllWithinContent(decls, content)
      modifies this, declarations, context, context.moduleTyping
      ensures Snapshot(context) == SecondPass(FirstPass(old(Snapshot(context)), decls, content), decls, content, hppHeaders)
      ensures errors == ImportErrors(decls, file)
    {
      for i := 0 to |decls|
        invariant Snapshot(context) == FirstPass(old(Snapshot(context)), decls[..i], content)
      {
        assert decls[..i + 1][..i] == decls[..i];
        RouteFirst(decls[i], context, content);
      }
      assert decls[..|decls|] == decls;
      ghost var mid := Snapshot(context);
      errors := [];
      for i := 0 to |decls|
        invariant Snapshot(context) == SecondPass(mid, decls[..i], content, hppHeaders)
        invariant errors == ImportErrors(decls[..i], file)
      {
        assert decls[..i + 1][..i] == decls[..i];
        var error := RouteSecond(decls[i], context, content, hppHeaders);
        if error.Some? {
          errors := errors + [error.value];
        }
      }
    }
  }

  // ----- the two passes of parse_declarations -----

  /**
   * A declaration of a file as `parse_declarations` meets it at module
   * level. The C++ text of a variable and of its type, and a class's text
   * and member lists, are made by parts outside this model and come in as
   * values; so does whether an imported module exists. Functions and
   * assumptions are `OtherItem`. The attributes of a variable or a class
   * are the ones `flatten_attributes` leaves behind.
   */
  datatype ModuleDecl =
    | VariableItem(cpp: string, name: string, varType: VariableTypes.VariableType, typeCpp: string, line: nat, attrs: Attributes)
    | AttributeItem(attr: ModuleAttributeDecl)
    | IncludeItem(inc: IncludeDecl)
    | ImportItem(imp: ImportDecl, moduleExists: bool)
    | InjectionItem(inj: InjectDecl)
    | ClassItem(classCpp: string, classAttrs: Attributes, constructs: DeclarationLists, publics: DeclarationLists, privates: DeclarationLists)
    | OtherItem

  /** The attribute parameters and the injection a declaration points at lie within the content. */
  predicate WithinContent(d: ModuleDecl, content: string) {
    match d
    case VariableItem(_, _, _, _, _, attrs) => attrs.data.Some? ==> AllWithin(attrs.data.value, content)
    case ClassItem(_, attrs, _, _, _) => attrs.data.Some? ==> AllWithin(attrs.data.value, content)
    case InjectionItem(inj) => inj.startIndex <= inj.endIndex <= |content|
    case _ => true
  }

  predicate AllWithinContent(decls: seq<ModuleDecl>, content: string) {
    forall i :: 0 <= i < |decls| ==> WithinContent(decls[i], content)
  }

  /** All but the last of the declarations lie within the content too. */
  lemma InitWithin(decls: seq<ModuleDecl>, content: string)
    requires AllWithinContent(decls, content) && decls != []
    ensures AllWithinContent(decls[..|decls| - 1], content)
  {
    var init := decls[..|decls| - 1];
    assert forall i :: 0 <= i < |init| ==> init[i] == decls[i];
  }

  /** The state the routing of declarations changes, as a value. */
  datatype Routing = Routing(outputLines: seq<string>, endLine: nat, headerIncludeLine: Option<nat>, handlingModuleAttributes: bool,
                             headerSystemIncludes: seq<string>, headerLocalIncludes: seq<string>, classDeclarations: seq<ClassEntry>,
                             importedModules: seq<string>, declarations: DeclarationLists, alignLines: bool, moduleScopes: seq<TypingContexts.Scope>)

  /** The header text of a module variable: its `extern` declaration as its attributes configure it. */
  function ExternText(d: ModuleDecl, content: string): string
    requires d.VariableItem? && WithinContent(d, content)
  {
    ConfiguredDeclaration("extern " + d.typeCpp + " " + d.name, d.attrs, content, true).1
  }

  /**
   * The first pass on one declaration: a variable's text goes to its
   * line, the end line moves to it, its `extern` declaration joins a
   * header list unless it is "NoHeader", and the module scope binds it.
   */
  function FirstStep(r: Routing, d: ModuleDecl, content: string): Routing
    requires WithinContent(d, content)
  {
    if !d.VariableItem? then r
    else
      var header := !Has(d.attrs, "NoHeader");
      var isolated := Has(d.attrs, "Isolated");
      var text := ExternText(d, content);
      r.(outputLines := Inserted(r.outputLines, d.cpp, VariableLine(r.alignLines, d.line, r.endLine, |r.outputLines|), false),
         endLine := d.line,
         declarations := r.declarations.(
           variableDeclarations := r.declarations.variableDeclarations + (if header && !isolated then [text] else []),
           variableDeclarationsIsolated := r.declarations.variableDeclarationsIsolated + (if header && isolated then [text] else [])),
         moduleScopes := if |r.moduleScopes| > 0 then TypingContexts.Bound(r.moduleScopes, d.name, TypingContexts.ContextType.Variable(d.varType)) else r.moduleScopes)
  }

  /** The first pass over `decls`, in order. */
  function FirstPass(r: Routing, decls: seq<ModuleDecl>, content: string): Routing
    requires AllWithinContent(decls, content)
    decreases |decls|
  {
    if decls == [] then r
    else
      var init := decls[..|decls| - 1];
      InitWithin(decls, content);
      FirstStep(FirstPass(r, init, content), decls[|decls| - 1], content)
  }

  /**
   * The second pass on one declaration: a module attribute may turn
   * alignment on, and then the header include goes to its line; any other
   * declaration ends the handling of module attributes, and a class, an
   * injection, an import of a known module or an include is routed.
   */
  function SecondStep(r: Routing, d: ModuleDecl, content: string, hppHeaders: bool): Routing
    requires WithinContent(d, content)
  {
    if d.AttributeItem? then
      var align := r.alignLines || d.attr.name == "TastyAlign";
      r.(alignLines := align, headerIncludeLine := if align then Some(d.attr.line) else r.headerIncludeLine)
    else KindRouted(r.(handlingModuleAttributes := false), d, content, hppHeaders)
  }

  /** A class, an injection, an import of a known module or an include, routed; any other declaration changes nothing. */
  function KindRouted(e: Routing, d: ModuleDecl, content: string, hppHeaders: bool): Routing
    requires WithinContent(d, content)
  {
    match d
    case ClassItem(classCpp, attrs, constructs, publics, privates) =>
      e.(classDeclarations := e.classDeclarations + [ClassEntry(ClassContent(classCpp, attrs, content), constructs, publics, privates)])
    case InjectionItem(inj) =>
      e.(outputLines := InjectedFrom(e.outputLines, SplitLines(InjectionText(inj, content, e.alignLines)),
        if e.alignLines then inj.line else |e.outputLines| + 1, e.alignLines))
    case ImportItem(imp, moduleExists) =>
      if moduleExists then
        e.(importedModules := e.importedModules + [imp.path],
           outputLines := Inserted(e.outputLines, ImportLine(imp.path, hppHeaders), if e.alignLines then imp.line else |e.outputLines|, false))
      else e
    case IncludeItem(inc) =>
      if inc.location == Header then
        if inc.incType == Local then e.(headerLocalIncludes := e.headerLocalIncludes + [inc.path])
        else e.(headerSystemIncludes := e.headerSystemIncludes + [inc.path])
      else
        e.(outputLines := Inserted(e.outputLines, IncludeLine(inc.path, inc.incType), if e.alignLines then inc.line else |e.outputLines|, false))
    case _ => e
  }

  /** The second pass over `decls`, in order. */
  function SecondPass(r: Routing, decls: seq<ModuleDecl>, content: string, hppHeaders: bool): Routing
    requires AllWithinContent(decls, content)
    decreases |decls|
  {
    if decls == [] then r
    else
      var init := decls[..|decls| - 1];
      InitWithin(decls, content);
      SecondStep(SecondPass(r, init, content, hppHeaders), decls[|decls| - 1], content, hppHeaders)
  }

  /** The `extern` texts of the variables that go to the header, in order: the isolated ones when `isolated`, the others otherwise. */
  function Externs(decls: seq<ModuleDecl>, content: string, isolated: bool): seq<string>
    requires AllWithinContent(decls, content)
    decreases |decls|
  {
    if decls == [] then []
    else
      var init := decls[..|decls| - 1];
      var d := decls[|decls| - 1];
      InitWithin(decls, content);
      Externs(init, content, isolated) + ExternAdded(d, content, isolated)
  }

  /** The `extern` text one declaration adds to the isolated list when `isolated`, to the normal one otherwise. */
  function ExternAdded(d: ModuleDecl, content: string, isolated: bool): seq<string>
    requires WithinContent(d, content)
  {
    if d.VariableItem? && !Has(d.attrs, "NoHeader") && Has(d.attrs, "Isolated") == isolated then [ExternText(d, content)] else []
  }

  /** The first pass on one declaration: everything but the output, the end line, the header lists and the module scopes is kept. */
  lemma FirstStepKeeps(r: Routing, d: ModuleDecl, content: string)
    requires WithinContent(d, content)
    ensures var f := FirstStep(r, d, content);
      f.(outputLines := r.outputLines, endLine := r.endLine, declarations := r.declarations, moduleScopes := r.moduleScopes) == r &&
      f.declarations.functionDeclarations == r.declarations.functionDeclarations &&
      f.declarations.functionDeclarationsIsolated == r.declarations.functionDeclarationsIsolated &&
      |f.moduleScopes| == |r.moduleScopes|
  {
  }

  /**
   * The first pass changes only the output, the end line, the variable
   * lists of the header and the module scopes, whose depth it keeps.
   */
  lemma {:induction false} FirstPassKeeps(r: Routing, decls: seq<ModuleDecl>, content: string)
    requires AllWithinContent(decls, content)
    ensures var f := FirstPass(r, decls, content);
      f.(outputLines := r.outputLines, endLine := r.endLine, declarations := r.declarations, moduleScopes := r.moduleScopes) == r &&
      f.declarations.functionDeclarations == r.declarations.functionDeclarations &&
      f.declarations.functionDeclarationsIsolated == r.declarations.functionDeclarationsIsolated &&
      |f.moduleScopes| == |r.moduleScopes|
    decreases |decls|
  {
    if decls != [] {
      var init := decls[..|decls| - 1];
      InitWithin(decls, content);
      FirstPassKeeps(r, init, content);
      FirstStepKeeps(FirstPass(r, init, content), decls[|decls| - 1], content);
    }
  }

  /** The header list of variables: the isolated one or the normal one. */
  function VariableList(lists: DeclarationLists, isolated: bool): seq<string> {
    if isolated then lists.variableDeclarationsIsolated else lists.variableDeclarations
  }

  /** One declaration of the first pass adds its `extern` text to the list its attributes choose. */
  lemma FirstStepExterns(r: Routing, d: ModuleDecl, content: string, isolated: bool)
    requires WithinContent(d, content)
    ensures VariableList(FirstStep(r, d, content).declarations, isolated) == VariableList(r.declarations, isolated) + ExternAdded(d, content, isolated)
  {
  }

  /** The header's variable lists grow by exactly the `extern` texts of the variables, in order. */
  lemma {:induction false} FirstPassExterns(r: Routing, decls: seq<ModuleDecl>, content: string, isolated: bool)
    requires AllWithinContent(decls, content)
    ensures VariableList(FirstPass(r, decls, content).declarations, isolated) == VariableList(r.declarations, isolated) + Externs(decls, content, isolated)
    decreases |decls|
  {
    if decls != [] {
      var init := decls[..|decls| - 1];
      InitWithin(decls, content);
      var d := decls[|decls| - 1];
      var add := ExternAdded(d, content, isolated);
      FirstPassExterns(r, init, content, isolated);
      FirstStepExterns(FirstPass(r, init, content), d, content, isolated);
      assert Externs(decls, content, isolated) == Externs(init, content, isolated) + add;
      assert FirstPass(r, decls, content) == FirstStep(FirstPass(r, init, content), d, content);
      assert VariableList(r.declarations, isolated) + Externs(init, content, isolated) + add ==
        VariableList(r.declarations, isolated) + (Externs(init, content, isolated) + add);
    }
  }

  /**
   * After the first pass a variable is bound in the module scope to its
   * type, unless a later variable of the same name rebinds it (given a
   * scope to bind in, which a typing context always starts with).
   */
  lemma {:induction false} FirstPassBinds(r: Routing, decls: seq<ModuleDecl>, content: string, i: nat)
    requires AllWithinContent(decls, content) && |r.moduleScopes| > 0
    requires i < |decls| && decls[i].VariableItem?
    requires forall j :: i < j < |decls| && decls[j].VariableItem? ==> decls[j].name != decls[i].name
    ensures TypingContexts.Lookup(FirstPass(r, decls, content).moduleScopes, decls[i].name) ==
      Some(TypingContexts.ContextType.Variable(decls[i].varType))
    decreases |decls|
  {
    var init := decls[..|decls| - 1];
    InitWithin(decls, content);
    var before := FirstPass(r, init, content);
    FirstPassKeeps(r, init, content);
    var d := decls[|decls| - 1];
    assert FirstPass(r, decls, content) == FirstStep(before, d, content);
    FirstStepScopes(before, d, content);
    if i == |decls| - 1 {
      TypingContexts.BoundLookup(before.moduleScopes, d.name, TypingContexts.ContextType.Variable(d.varType), d.name);
    } else {
      assert init[i] == decls[i];
      FirstPassBinds(r, init, content, i);
      if d.VariableItem? {
        TypingContexts.BoundLookup(before.moduleScopes, d.name, TypingContexts.ContextType.Variable(d.varType), decls[i].name);
      }
    }
  }

  /** One declaration of the first pass binds a variable in the innermost module scope, if there is one, and leaves the scopes alone otherwise. */
  lemma FirstStepScopes(r: Routing, d: ModuleDecl, content: string)
    requires WithinContent(d, content)
    ensures FirstStep(r, d, content).moduleScopes ==
      if d.VariableItem? && |r.moduleScopes| > 0
      then TypingContexts.Bound(r.moduleScopes, d.name, TypingContexts.ContextType.Variable(d.varType))
      else r.moduleScopes
  {
  }

  /** The modules of the imports of known modules, in order. */
  function KnownImports(decls: seq<ModuleDecl>): seq<string>
    decreases |decls|
  {
    if decls == [] then []
    else
      var d := decls[|decls| - 1];
      KnownImports(decls[..|decls| - 1]) + (if d.ImportItem? && d.moduleExists then [d.imp.path] else [])
  }

  /** Some declaration is the module attribute "TastyAlign". */
  predicate AlignRequested(decls: seq<ModuleDecl>) {
    exists i :: 0 <= i < |decls| && decls[i].AttributeItem? && decls[i].attr.name == "TastyAlign"
  }

  /** One declaration of the second pass keeps the end line, the header's lists and the module scopes, and adds a known import. */
  lemma SecondStepEffect(r: Routing, d: ModuleDecl, content: string, hppHeaders: bool)
    requires WithinContent(d, content)
    ensures var f := SecondStep(r, d, content, hppHeaders);
      f.endLine == r.endLine && f.declarations == r.declarations && f.moduleScopes == r.moduleScopes &&
      f.importedModules == r.importedModules + (if d.ImportItem? && d.moduleExists then [d.imp.path] else [])
  {
  }

  /** The second pass leaves the end line, the header's declaration lists and the module scopes alone. */
  lemma {:induction false} SecondPassKeeps(r: Routing, decls: seq<ModuleDecl>, content: string, hppHeaders: bool)
    requires AllWithinContent(decls, content)
    ensures var f := SecondPass(r, decls, content, hppHeaders);
      f.endLine == r.endLine && f.declarations == r.declarations && f.moduleScopes == r.moduleScopes
    decreases |decls|
  {
    if decls != [] {
      var init := decls[..|decls| - 1];
      InitWithin(decls, content);
      SecondPassKeeps(r, init, content, hppHeaders);
      SecondStepEffect(SecondPass(r, init, content, hppHeaders), decls[|decls| - 1], content, hppHeaders);
    }
  }

  /** The imported modules grow by the known imports, in order. */
  lemma {:induction false} SecondPassImports(r: Routing, decls: seq<ModuleDecl>, content: string, hppHeaders: bool)
    requires AllWithinContent(decls, content)
    ensures SecondPass(r, decls, content, hppHeaders).importedModules == r.importedModules + KnownImports(decls)
    decreases |decls|
  {
    if decls != [] {
      var init := decls[..|decls| - 1];
      InitWithin(decls, content);
      SecondPassImports(r, init, content, hppHeaders);
      SecondStepEffect(SecondPass(r, init, content, hppHeaders), decls[|decls| - 1], content, hppHeaders);
    }
  }

  /** Alignment is on after the second pass exactly when it was before or a "TastyAlign" attribute is among the declarations. */
  lemma {:induction false} SecondPassAlignment(r: Routing, decls: seq<ModuleDecl>, content: string, hppHeaders: bool)
    requires AllWithinContent(decls, content)
    ensures SecondPass(r, decls, content, hppHeaders).alignLines <==> r.alignLines || AlignRequested(decls)
    decreases |decls|
  {
    if decls != [] {
      var init := decls[..|decls| - 1];
      var d := decls[|decls| - 1];
      InitWithin(decls, content);
      SecondPassAlignment(r, init, content, hppHeaders);
      assert SecondPass(r, decls, content, hppHeaders) == SecondStep(SecondPass(r, init, content, hppHeaders), d, content, hppHeaders);
      SecondStepFlags(SecondPass(r, init, content, hppHeaders), d, content, hppHeaders);
      if AlignRequested(init) {
        var i :| 0 <= i < |init| && init[i].AttributeItem? && init[i].attr.name == "TastyAlign";
        assert decls[i] == init[i];
      }
      if d.AttributeItem? && d.attr.name == "TastyAlign" {
        assert AlignRequested(decls);
      }
      if AlignRequested(decls) && !AlignRequested(init) {
        var i :| 0 <= i < |decls| && decls[i].AttributeItem? && decls[i].attr.name == "TastyAlign";
        assert i == |init|;
      }
    }
  }

  /** Module attributes are still being handled after the second pass exactly when they were and every declaration is one. */
  lemma {:induction false} SecondPassHandling(r: Routing, decls: seq<ModuleDecl>, content: string, hppHeaders: bool)
    requires AllWithinContent(decls, content)
    ensures SecondPass(r, decls, content, hppHeaders).handlingModuleAttributes <==>
      r.handlingModuleAttributes && forall i :: 0 <= i < |decls| ==> decls[i].AttributeItem?
    decreases |decls|
  {
    if decls != [] {
      var init := decls[..|decls| - 1];
      InitWithin(decls, content);
      SecondPassHandling(r, init, content, hppHeaders);
      var d := decls[|decls| - 1];
      assert SecondPass(r, decls, content, hppHeaders) == SecondStep(SecondPass(r, init, content, hppHeaders), d, content, hppHeaders);
      SecondStepFlags(SecondPass(r, init, content, hppHeaders), d, content, hppHeaders);
      assert forall i :: 0 <= i < |init| ==> init[i] == decls[i];
    }
  }

  /** One declaration of the second pass turns alignment on if it is "TastyAlign", and ends the module attributes unless it is one. */
  lemma SecondStepFlags(r: Routing, d: ModuleDecl, content: string, hppHeaders: bool)
    requires WithinContent(d, content)
    ensures var f := SecondStep(r, d, content, hppHeaders);
      (f.alignLines <==> r.alignLines || (d.AttributeItem? && d.attr.name == "TastyAlign")) &&
      (f.handlingModuleAttributes <==> r.handlingModuleAttributes && d.AttributeItem?)
  {
  }

  /** The source line of the last variable among `decls`, or `otherwise` when there is none. */
  function LastVariableLine(decls: seq<ModuleDecl>, otherwise: nat): nat
    decreases |decls|
  {
    if decls == [] then otherwise
    else if decls[|decls| - 1].VariableItem? then decls[|decls| - 1].line
    else LastVariableLine(decls[..|decls| - 1], otherwise)
  }

  /** After the first pass the end line is that of the last variable, if any. */
  lemma {:induction false} FirstPassEndLine(r: Routing, decls: seq<ModuleDecl>, content: string)
    requires AllWithinContent(decls, content)
    ensures FirstPass(r, decls, content).endLine == LastVariableLine(decls, r.endLine)
    decreases |decls|
  {
    if decls != [] {
      var init := decls[..|decls| - 1];
      InitWithin(decls, content);
      if !decls[|decls| - 1].VariableItem? {
        FirstPassEndLine(r, init, content);
      }
    }
  }

  /**
   * Both passes of `parse_declarations` together: the header's variable
   * lists gain the `extern` texts of the variables, in order; the end line
   * is the last variable's; the imported modules gain the known imports,
   * in order; alignment is on when it was or "TastyAlign" is declared; and
   * module attributes are still handled only when every declaration is
   * one. Neither pass touches the function lists.
   */
  lemma TwoPassEffect(r: Routing, decls: seq<ModuleDecl>, content: string, hppHeaders: bool)
    requires AllWithinContent(decls, content)
    ensures var f := SecondPass(FirstPass(r, decls, content), decls, content, hppHeaders);
      VariableList(f.declarations, false) == VariableList(r.declarations, false) + Externs(decls, content, false) &&
      VariableList(f.declarations, true) == VariableList(r.declarations, true) + Externs(decls, content, true) &&
      f.declarations.functionDeclarations == r.declarations.functionDeclarations &&
      f.declarations.functionDeclarationsIsolated == r.declarations.functionDeclarationsIsolated &&
      f.endLine == LastVariableLine(decls, r.endLine) &&
      f.importedModules == r.importedModules + KnownImports(decls) &&
      (f.alignLines <==> r.alignLines || AlignRequested(decls)) &&
      (f.handlingModuleAttributes <==> r.handlingModuleAttributes && forall i :: 0 <= i < |decls| ==> decls[i].AttributeItem?)
  {
    var m := FirstPass(r, decls, content);
    FirstPassKeeps(r, decls, content);
    FirstPassExterns(r, decls, content, false);
    FirstPassExterns(r, decls, content, true);
    FirstPassEndLine(r, decls, content);
    SecondPassKeeps(m, decls, content, hppHeaders);
    SecondPassImports(m, decls, content, hppHeaders);
    SecondPassAlignment(m, decls, content, hppHeaders);
    SecondPassHandling(m, decls, content, hppHeaders);
  }

  /**
   * Variables are placed before any module attribute of the same list is
   * registered: the first pass sees the alignment flag as it was, so a
   * "TastyAlign" attribute never moves the variables declared beside it.
   */
  lemma VariablesPlacedBeforeAlignment(r: Routing, decls: seq<ModuleDecl>, content: string)
    requires AllWithinContent(decls, content) && !r.alignLines
    ensures FirstPass(r, decls, content).alignLines == false
  {
    FirstPassKeeps(r, decls, content);
  }

  /** The error an import of an unknown module yields: "Import Not Found" on the line after it, over its path. */
  function ImportError(d: ModuleDecl, file: string): (r: Option<Diagnostic>)
    ensures r.Some? <==> d.ImportItem? && !d.moduleExists
  {
    if d.ImportItem? && !d.moduleExists then
      Some(Diagnostic("Import Not Found", "could not find Tasty Fresh source file", Position(file, Some(d.imp.line + 1), 7, Some(7 + |d.imp.path|))))
    else None
  }

  /** The errors of the declarations, in order. */
  function ImportErrors(decls: seq<ModuleDecl>, file: string): seq<Diagnostic>
    decreases |decls|
  {
    if decls == [] then []
    else
      var e := ImportError(decls[|decls| - 1], file);
      ImportErrors(decls[..|decls| - 1], file) + (if e.Some? then [e.value] else [])
  }

  /** The header text of a class: configured by its attributes, with a blank line after an isolated one. */
  function ClassContent(classCpp: string, attrs: Attributes, content: string): string
    requires attrs.data.Some? ==> AllWithin(attrs.data.value, content)
  {
    var (isolated, text) := ConfiguredDeclaration(classCpp, attrs, content, false);
    if isolated then text + "\n" else text
  }

  /** A class without attributes keeps its C++ text as it is. */
  lemma UnattributedClass(classCpp: string, content: string)
    ensures ClassContent(classCpp, Attributes(None), content) == classCpp
  {
    UnattributedDeclaration(classCpp, content, false);
  }

  /** The text of an injection: trimmed unless lines are aligned. */
  function InjectionText(inj: InjectDecl, content: string, alignLines: bool): string
    requires inj.startIndex <= inj.endIndex <= |content|
  {
    if alignLines then content[inj.startIndex..inj.endIndex] else Trim(content[inj.startIndex..inj.endIndex])
  }

  /**
   * The buffer after the lines `pieces` are placed one per line from
   * `line` on; without alignment a blank line is dropped and takes no line.
   */
  function InjectedFrom(out: seq<string>, pieces: seq<string>, line: nat, alignLines: bool): seq<string>
    decreases |pieces|
  {
    if pieces == [] then out
    else if !alignLines && Trim(pieces[0]) == "" then InjectedFrom(out, pieces[1..], line, alignLines)
    else InjectedFrom(Inserted(out, pieces[0], line, false), pieces[1..], line + 1, alignLines)
  }

  /** The loop of the injection routing: places `pieces` from `line` on. */
  method PlaceInjection(lines: seq<string>, pieces: seq<string>, start: nat, alignLines: bool) returns (out: seq<string>)
    ensures out == InjectedFrom(lines, pieces, start, alignLines)
  {
    out := lines;
    var line := start;
    for i := 0 to |pieces|
      invariant InjectedFrom(out, pieces[i..], line, alignLines) == InjectedFrom(lines, pieces, start, alignLines)
    {
      assert pieces[i..][1..] == pieces[i + 1..];
      InjectedStep(out, pieces[i..], line, alignLines);
      if !alignLines && Trim(pieces[i]) == "" {
        continue;
      }
      out := InsertOutputLine(out, pieces[i], line, false);
      line := line + 1;
    }
    assert pieces[|pieces|..] == [];
  }

  /** One step of placing an injection's lines. */
  lemma InjectedStep(out: seq<string>, pieces: seq<string>, line: nat, alignLines: bool)
    requires pieces != []
    ensures !alignLines && Trim(pieces[0]) == "" ==> InjectedFrom(out, pieces, line, alignLines) == InjectedFrom(out, pieces[1..], line, alignLines)
    ensures alignLines || Trim(pieces[0]) != "" ==>
      InjectedFrom(out, pieces, line, alignLines) == InjectedFrom(Inserted(out, pieces[0], line, false), pieces[1..], line + 1, alignLines)
  {
  }

  /** `n` empty lines. */
  function Blanks(n: nat): (r: seq<string>)
    ensures |r| == n && forall i :: 0 <= i < n ==> r[i] == ""
  {
    seq(n, _ => "")
  }

  /** The lines that are not blank, in order. */
  function NonBlank(pieces: seq<string>): seq<string>
    decreases |pieces|
  {
    if pieces == [] then []
    else if Trim(pieces[0]) == "" then NonBlank(pieces[1..])
    else [pieces[0]] + NonBlank(pieces[1..])
  }

  /** A line placed past the end of the buffer lands after empty padding. */
  lemma InsertedPastEnd(lines: seq<string>, line: string, n: nat)
    requires |lines| <= n
    ensures Inserted(lines, line, n, false) == lines + Blanks(n - |lines|) + [line]
  {
    var r := Inserted(lines, line, n, false);
    var expected := lines + Blanks(n - |lines|) + [line];
    assert |r| == |expected|;
    forall i | 0 <= i < |r|
      ensures r[i] == expected[i]
    {
      if i < |lines| {
      } else if i < n {
      } else {
        assert i == n;
      }
    }
  }

  /**
   * Under alignment, an injection placed past the end of the buffer keeps
   * its line layout: padding up to its line, then each of its lines,
   * blank ones included.
   */
  lemma {:induction false} AlignedInjectionKeepsLines(out: seq<string>, pieces: seq<string>, line: nat)
    requires |out| <= line
    ensures pieces != [] ==> InjectedFrom(out, pieces, line, true) == out + Blanks(line - |out|) + pieces
    ensures pieces == [] ==> InjectedFrom(out, pieces, line, true) == out
    decreases |pieces|
  {
    if pieces != [] {
      InsertedPastEnd(out, pieces[0], line);
      var next := Inserted(out, pieces[0], line, false);
      AlignedInjectionKeepsLines(next, pieces[1..], line + 1);
      assert next + Blanks(0) == next;
      assert pieces == [pieces[0]] + pieces[1..];
    }
  }

  /**
   * Without alignment, an injection placed past the end of the buffer is
   * its non-blank lines one after another behind padding, and an
   * injection of blank lines only adds nothing.
   */
  lemma {:induction false} UnalignedInjectionDropsBlanks(out: seq<string>, pieces: seq<string>, line: nat)
    requires |out| <= line
    ensures NonBlank(pieces) != [] ==> InjectedFrom(out, pieces, line, false) == out + Blanks(line - |out|) + NonBlank(pieces)
    ensures NonBlank(pieces) == [] ==> InjectedFrom(out, pieces, line, false) == out
    decreases |pieces|
  {
    if pieces != [] {
      if Trim(pieces[0]) == "" {
        UnalignedInjectionDropsBlanks(out, pieces[1..], line);
      } else {
        InsertedPastEnd(out, pieces[0], line);
        var next := Inserted(out, pieces[0], line, false);
        UnalignedInjectionDropsBlanks(next, pieces[1..], line + 1);
        assert next + Blanks(0) == next;
      }
    }
  }

  /** Under alignment, an include lands on its own source line, after what that line already holds. */
  lemma AlignedIncludeLandsOnItsLine(lines: seq<string>, path: string, incType: IncludeType, line: nat)
    ensures var r := Inserted(lines, IncludeLine(path, incType), line, false);
      line < |r| && (line >= |lines| || lines[line] == "" ==> r[line] == IncludeLine(path, incType))
  {
  }
}
