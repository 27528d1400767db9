// What `transpile_source_file` does with a transpiled file before writing
// it: the blank lines kept free at the top of the C++ source for the
// header's `#include`, the path that include names, and the assembly of
// the header with its include guard (src/main.rs:334-417).

module SourceFiles {
  import opened Text
  import opened Wrappers
  import opened MainOutput
  import opened IncludeDeclarations
  import opened HeaderContexts
  import opened Transpilers

  // ----- the top of the C++ source -----

  /**
   * The source lines with blank lines put in front until the first two
   * lines are blank (or the only line is): at most two are added and
   * nothing else moves.
   */
  function Padded(lines: seq<string>): (r: seq<string>)
    requires lines != []
    ensures |lines| <= |r| <= |lines| + 2
    ensures r[|r| - |lines|..] == lines
    ensures forall i :: 0 <= i < |r| - |lines| ==> r[i] == ""
    ensures r[0] == ""
    ensures |r| >= 2 ==> r[0] == "" && r[1] == ""
    ensures (|lines| >= 2 && lines[0] == "" && lines[1] == "") || lines == [""] ==> r == lines
  {
    var first := if lines[0] != "" then [""] + lines else lines;
    if |first| > 1 && first[1] != "" then [""] + first else first
  }

  /**
   * The source lines and header include line after the prelude of
   * `transpile_source_file`: a non-empty buffer with no include line yet
   * is padded and its include goes on line 0; otherwise nothing changes.
   */
  function Prepared(lines: seq<string>, headerIncludeLine: Option<nat>): (r: (seq<string>, Option<nat>))
    ensures lines == [] || headerIncludeLine.Some? ==> r == (lines, headerIncludeLine)
    ensures lines != [] && headerIncludeLine.None? ==> r.1 == Some(0) && r.0 == Padded(lines)
  {
    if lines != [] && headerIncludeLine.None? then (Padded(lines), Some(0)) else (lines, headerIncludeLine)
  }

  /** The prelude, on the transpiler's own buffer. */
  method PrepareOutput(t: Transpiler)
    modifies t`outputLines, t`headerIncludeLine
    ensures (t.outputLines, t.headerIncludeLine) == Prepared(old(t.outputLines), old(t.headerIncludeLine))
  {
    if t.outputLines != [] {
      if t.headerIncludeLine.None? {
        if t.outputLines[0] != "" {
          t.outputLines := [""] + t.outputLines;
        }
        if |t.outputLines| > 1 && t.outputLines[1] != "" {
          t.outputLines := [""] + t.outputLines;
        }
        t.headerIncludeLine := Some(0);
      }
    }
  }

  /**
   * Once the header's include is written over line 0 of a padded buffer,
   * it stands alone on the first line, a blank line follows it whenever
   * there is a second line, and every non-blank source line is still
   * there, shifted down by the padding.
   */
  lemma HeaderIncludeStandsAlone(lines: seq<string>, includeText: string)
    requires lines != [] && includeText != ""
    ensures var p := Prepared(lines, None).0;
      var r := Inserted(p, includeText, 0, true);
      r[0] == includeText && (|r| >= 2 ==> r[1] == "") && |lines| <= |r| &&
      forall i :: 0 <= i < |lines| && lines[i] != "" ==> r[i + |r| - |lines|] == lines[i]
  {
    var p := Padded(lines);
    assert Prepared(lines, None).0 == p;
    ReplacedFirstLine(p, includeText);
    var r := Inserted(p, includeText, 0, true);
    var d := |p| - |lines|;
    forall i | 0 <= i < |lines| && lines[i] != ""
      ensures r[i + d] == lines[i]
    {
      assert p[i + d] == p[d..][i] == lines[i];
    }
  }

  /** Writing over line 0 with `clear` replaces that line and keeps every other. */
  lemma ReplacedFirstLine(p: seq<string>, text: string)
    requires p != [] && text != ""
    ensures var r := Inserted(p, text, 0, true);
      |r| == |p| && r[0] == text && forall i :: 1 <= i < |p| ==> r[i] == p[i]
  {
  }

  /**
   * The header's path as the source includes it: relative to the source
   * directory when it lies inside it (written with or without a leading
   * "./"), unchanged otherwise.
   */
  function IncludedHeaderPath(headerPath: string, sourceLocation: string): (r: string)
    ensures StartsWith(headerPath, "./" + sourceLocation + "/") ==> "./" + sourceLocation + "/" + r == headerPath
    ensures !StartsWith(headerPath, "./" + sourceLocation + "/") && StartsWith(headerPath, sourceLocation + "/") ==> sourceLocation + "/" + r == headerPath
    ensures !StartsWith(headerPath, "./" + sourceLocation + "/") && !StartsWith(headerPath, sourceLocation + "/") ==> r == headerPath
  {
    if StartsWith(headerPath, "./" + sourceLocation + "/") then headerPath[|sourceLocation| + 3..]
    else if StartsWith(headerPath, sourceLocation + "/") then headerPath[|sourceLocation| + 1..]
    else headerPath
  }

  /** A header inside the source directory is included by its path relative to that directory. */
  lemma IncludedHeaderPathRelative(sourceLocation: string, relative: string)
    ensures IncludedHeaderPath("./" + sourceLocation + "/" + relative, sourceLocation) == relative
    ensures sourceLocation == "" || sourceLocation[0] != '.' ==> IncludedHeaderPath(sourceLocation + "/" + relative, sourceLocation) == relative
  {
    var dotted := "./" + sourceLocation + "/" + relative;
    assert dotted[..|"./" + sourceLocation + "/"|] == "./" + sourceLocation + "/";
    assert dotted[|sourceLocation| + 3..] == relative;
    var plain := sourceLocation + "/" + relative;
    assert plain[..|sourceLocation + "/"|] == sourceLocation + "/";
    assert plain[|sourceLocation| + 1..] == relative;
    if sourceLocation == "" {
      assert plain[0] == '/';
    } else {
      assert plain[0] == sourceLocation[0];
    }
  }

  // ----- the header -----

  /** ASCII upper case (`to_uppercase` on ASCII text). */
  function UpperChar(c: char): char {
    if 'a' <= c <= 'z' then (c as int - 32) as char else c
  }

  function Upper(s: string): (r: string)
    ensures |r| == |s|
    ensures forall i :: 0 <= i < |s| ==> !('a' <= r[i] <= 'z')
    ensures forall i :: 0 <= i < |s| && !('a' <= s[i] <= 'z') ==> r[i] == s[i]
    ensures forall i :: 0 <= i < |s| && 'a' <= s[i] <= 'z' ==> r[i] as int == s[i] as int - 32
  {
    seq(|s|, i requires 0 <= i < |s| => UpperChar(s[i]))
  }

  /** The include-guard macro of a file: its stem in upper case and "_TASTYFILE". */
  function MacroName(stem: string): string {
    Upper(stem) + "_TASTYFILE"
  }

  /** The first lines of a header. */
  function Opening(stem: string, pragmaGuard: bool): seq<string> {
    if pragmaGuard then ["#pragma once"] else ["#ifndef " + MacroName(stem), "#define " + MacroName(stem)]
  }

  /** The last lines of a header. */
  function Closing(pragmaGuard: bool): seq<string> {
    if pragmaGuard then [] else ["#endif"]
  }

  /** One `#include` line per path. */
  function IncludeLines(paths: seq<string>, incType: IncludeType): (r: seq<string>)
    ensures |r| == |paths| && forall i :: 0 <= i < |paths| ==> r[i] == IncludeLine(paths[i], incType)
  {
    seq(|paths|, i requires 0 <= i < |paths| => IncludeLine(paths[i], incType))
  }

  function HeaderPaths(headers: seq<Header>): (r: seq<string>)
    ensures |r| == |headers| && forall i :: 0 <= i < |headers| ==> r[i] == headers[i].path
  {
    seq(|headers|, i requires 0 <= i < |headers| => headers[i].path)
  }

  /** The system block: the module's headers, then the system includes, then a blank line; nothing when both are empty. */
  function SystemBlock(contextHeaders: seq<Header>, systemIncludes: seq<string>): seq<string> {
    if contextHeaders != [] || systemIncludes != [] then
      IncludeLines(HeaderPaths(contextHeaders), System) + IncludeLines(systemIncludes, System) + [""]
    else []
  }

  /** The local block: the local includes and a blank line; nothing when there are none. */
  function LocalBlock(localIncludes: seq<string>): seq<string> {
    if localIncludes != [] then IncludeLines(localIncludes, Local) + [""] else []
  }

  function DropLast(lines: seq<string>): seq<string> {
    if lines == [] then [] else lines[..|lines| - 1]
  }

  /**
   * The lines of one class: "public:" over the constructor and public
   * declarations when there are any, "private:" over the private ones when
   * there are any, the blank line after the last section of each label
   * dropped, then "};" and a blank line.
   */
  function ClassLines(c: ClassEntry): seq<string>
  {
    [c.content] + PublicLines(c) + PrivateLines(c) + ["};", ""]
  }

  function PublicLines(c: ClassEntry): seq<string>
  {
    if !c.constructs.IsEmpty() || !c.publics.IsEmpty() then
      ["public:"]
      + (if !c.constructs.IsEmpty() then c.constructs.Exported(1, false) else [])
      + (if !c.publics.IsEmpty() then DropLast(c.publics.Exported(1, false)) else [])
    else []
  }

  function PrivateLines(c: ClassEntry): seq<string>
  {
    if !c.privates.IsEmpty() then ["private:"] + DropLast(c.privates.Exported(1, false)) else []
  }

  function ClassesLines(classes: seq<ClassEntry>): seq<string>
    decreases |classes|
  {
    if classes == [] then []
    else
      ClassesLines(classes[..|classes| - 1]) + ClassLines(classes[|classes| - 1])
  }

  /** The guard and the include blocks that open a header. */
  function HeaderTop(stem: string, pragmaGuard: bool, contextHeaders: seq<Header>, systemIncludes: seq<string>, localIncludes: seq<string>): seq<string> {
    Opening(stem, pragmaGuard) + [""] + SystemBlock(contextHeaders, systemIncludes) + LocalBlock(localIncludes)
  }

  /** The header of a file, line by line. */
  function HeaderLines(stem: string, pragmaGuard: bool, contextHeaders: seq<Header>, systemIncludes: seq<string>, localIncludes: seq<string>,
                       declarations: DeclarationLists, classes: seq<ClassEntry>): seq<string>
  {
    HeaderTop(stem, pragmaGuard, contextHeaders, systemIncludes, localIncludes)
    + declarations.Exported(0, true)
    + ClassesLines(classes)
    + Closing(pragmaGuard)
  }

  /**
   * With `pragmaGuard` the header opens with "#pragma once"; without it
   * the `#ifndef`/`#define` pair of the file's macro opens it and
   * "#endif" closes it.
   */
  lemma HeaderGuarded(stem: string, pragmaGuard: bool, contextHeaders: seq<Header>, systemIncludes: seq<string>, localIncludes: seq<string>,
                      declarations: DeclarationLists, classes: seq<ClassEntry>)
    ensures var r := HeaderLines(stem, pragmaGuard, contextHeaders, systemIncludes, localIncludes, declarations, classes);
      pragmaGuard ==> r[0] == "#pragma once" && r[1] == ""
    ensures var r := HeaderLines(stem, pragmaGuard, contextHeaders, systemIncludes, localIncludes, declarations, classes);
      !pragmaGuard ==> r[0] == "#ifndef " + Upper(stem) + "_TASTYFILE" && r[1] == "#define " + Upper(stem) + "_TASTYFILE" && r[2] == ""
    ensures var r := HeaderLines(stem, pragmaGuard, contextHeaders, systemIncludes, localIncludes, declarations, classes);
      !pragmaGuard ==> r[|r| - 1] == "#endif"
  {
    GuardFramed(stem, pragmaGuard, SystemBlock(contextHeaders, systemIncludes), LocalBlock(localIncludes), declarations.Exported(0, true),
      ClassesLines(classes), HeaderLines(stem, pragmaGuard, contextHeaders, systemIncludes, localIncludes, declarations, classes));
  }

  /** The guard lines frame a header whatever its middle parts are. */
  lemma GuardFramed(stem: string, pragmaGuard: bool, a: seq<string>, b: seq<string>, c: seq<string>, d: seq<string>, r: seq<string>)
    requires r == Opening(stem, pragmaGuard) + [""] + a + b + c + d + Closing(pragmaGuard)
    ensures pragmaGuard ==> r[0] == "#pragma once" && r[1] == ""
    ensures !pragmaGuard ==> r[0] == "#ifndef " + Upper(stem) + "_TASTYFILE" && r[1] == "#define " + Upper(stem) + "_TASTYFILE" && r[2] == ""
    ensures !pragmaGuard ==> r[|r| - 1] == "#endif"
  {
    var front := Opening(stem, pragmaGuard) + [""];
    var close := Closing(pragmaGuard);
    Framed(front, a, b, c, d, close, r);
    if !pragmaGuard {
      assert front == ["#ifndef " + MacroName(stem), "#define " + MacroName(stem), ""];
      assert r[|r| - |close| + 0] == close[0];
    } else {
      assert front == ["#pragma once", ""];
    }
  }

  /** The first lines of a header are its opening and the last its closing, whatever lies between. */
  lemma Framed(front: seq<string>, a: seq<string>, b: seq<string>, c: seq<string>, d: seq<string>, back: seq<string>, r: seq<string>)
    requires r == front + a + b + c + d + back
    ensures |front| + |back| <= |r|
    ensures forall k :: 0 <= k < |front| ==> r[k] == front[k]
    ensures forall k :: 0 <= k < |back| ==> r[|r| - |back| + k] == back[k]
  {
  }

  /** Every include of the header, system or local, has its `#include` line. */
  lemma HeaderIncludesListed(stem: string, pragmaGuard: bool, contextHeaders: seq<Header>, systemIncludes: seq<string>, localIncludes: seq<string>,
                             declarations: DeclarationLists, classes: seq<ClassEntry>)
    ensures var r := HeaderLines(stem, pragmaGuard, contextHeaders, systemIncludes, localIncludes, declarations, classes);
      (forall h :: h in contextHeaders ==> "#include <" + h.path + ">" in r) &&
      (forall p :: p in systemIncludes ==> "#include <" + p + ">" in r) &&
      (forall p :: p in localIncludes ==> "#include \"" + p + "\"" in r)
  {
    IncludesInside(Opening(stem, pragmaGuard) + [""], contextHeaders, systemIncludes, localIncludes, declarations.Exported(0, true),
      ClassesLines(classes), Closing(pragmaGuard), HeaderLines(stem, pragmaGuard, contextHeaders, systemIncludes, localIncludes, declarations, classes));
  }

  lemma IncludesInside(front: seq<string>, contextHeaders: seq<Header>, systemIncludes: seq<string>, localIncludes: seq<string>,
                       c: seq<string>, d: seq<string>, back: seq<string>, r: seq<string>)
    requires r == front + SystemBlock(contextHeaders, systemIncludes) + LocalBlock(localIncludes) + c + d + back
    ensures forall h :: h in contextHeaders ==> "#include <" + h.path + ">" in r
    ensures forall p :: p in systemIncludes ==> "#include <" + p + ">" in r
    ensures forall p :: p in localIncludes ==> "#include \"" + p + "\"" in r
  {
    var sys := SystemBlock(contextHeaders, systemIncludes);
    var loc := LocalBlock(localIncludes);
    Inside(front, sys, loc, c, d, back, r);
    forall h | h in contextHeaders
      ensures "#include <" + h.path + ">" in r
    {
      var i :| 0 <= i < |contextHeaders| && contextHeaders[i] == h;
      assert sys[i] == IncludeLine(h.path, System);
      assert r[|front| + i] == sys[i];
    }
    forall p | p in systemIncludes
      ensures "#include <" + p + ">" in r
    {
      var i :| 0 <= i < |systemIncludes| && systemIncludes[i] == p;
      assert sys[|contextHeaders| + i] == IncludeLine(p, System);
      assert r[|front| + |contextHeaders| + i] == sys[|contextHeaders| + i];
    }
    forall p | p in localIncludes
      ensures "#include \"" + p + "\"" in r
    {
      var i :| 0 <= i < |localIncludes| && localIncludes[i] == p;
      assert loc[i] == IncludeLine(p, Local);
      assert r[|front| + |sys| + i] == loc[i];
    }
  }

  lemma Inside(front: seq<string>, a: seq<string>, b: seq<string>, c: seq<string>, d: seq<string>, back: seq<string>, r: seq<string>)
    requires r == front + a + b + c + d + back
    ensures |front| + |a| + |b| <= |r|
    ensures forall i :: 0 <= i < |a| ==> r[|front| + i] == a[i]
    ensures forall i :: 0 <= i < |b| ==> r[|front| + |a| + i] == b[i]
  {
  }

  /** A file with nothing to declare gets a header of its guard alone. */
  lemma EmptyHeader(stem: string, pragmaGuard: bool, declarations: DeclarationLists)
    requires declarations.IsEmpty()
    ensures pragmaGuard ==> HeaderLines(stem, pragmaGuard, [], [], [], declarations, []) == ["#pragma once", ""]
    ensures !pragmaGuard ==> HeaderLines(stem, pragmaGuard, [], [], [], declarations, []) == ["#ifndef " + MacroName(stem), "#define " + MacroName(stem), "", "#endif"]
  {
    declarations.ExportedEmptyIff(0, true);
  }

  /**
   * A class opens with its own text and closes with "};" and a blank
   * line; its second line is "public:" exactly when it has constructor or
   * public declarations.
   */
  lemma ClassFraming(c: ClassEntry)
    ensures var r := ClassLines(c);
      |r| >= 3 && r[0] == c.content && r[|r| - 2..] == ["};", ""] &&
      (r[1] == "public:" <==> !c.constructs.IsEmpty() || !c.publics.IsEmpty())
  {
  }

  // ----- assembling the header -----

  /** Appends the `#include` lines of `paths`. */
  method PushIncludes(lines: seq<string>, paths: seq<string>, incType: IncludeType) returns (out: seq<string>)
    ensures out == lines + IncludeLines(paths, incType)
  {
    out := lines;
    for i := 0 to |paths|
      invariant out == lines + IncludeLines(paths[..i], incType)
    {
      assert IncludeLines(paths[..i + 1], incType) == IncludeLines(paths[..i], incType) + [IncludeLine(paths[i], incType)];
      out := out + [IncludeLine(paths[i], incType)];
    }
    assert paths[..|paths|] == paths;
  }

  /** Removing the last line of `lines + more` removes the last line of `more` when there is one. */
  lemma PopAppended(lines: seq<string>, more: seq<string>)
    requires more != []
    ensures (lines + more)[..|lines + more| - 1] == lines + DropLast(more)
  {
  }

  /** Appends the "public:" section of a class. */
  method PushPublic(lines: seq<string>, c: ClassEntry) returns (out: seq<string>)
    ensures out == lines + PublicLines(c)
  {
    out := lines;
    if !c.constructs.IsEmpty() || !c.publics.IsEmpty() {
      out := out + ["public:"];
      var constructs: seq<string> := [];
      if !c.constructs.IsEmpty() {
        out := c.constructs.ExportToLines(out, 1, false);
        constructs := c.constructs.Exported(1, false);
      }
      assert out == lines + ["public:"] + constructs;
      var publics: seq<string> := [];
      if !c.publics.IsEmpty() {
        c.publics.ExportedEmptyIff(1, false);
        out := c.publics.ExportToLines(out, 1, false);
        PopAppended(lines + ["public:"] + constructs, c.publics.Exported(1, false));
        out := out[..|out| - 1];
        publics := DropLast(c.publics.Exported(1, false));
      }
      assert out == lines + ["public:"] + constructs + publics;
      Regroup3(lines, ["public:"], constructs, publics);
    }
  }

  /** Appends the "private:" section of a class. */
  method PushPrivate(lines: seq<string>, c: ClassEntry) returns (out: seq<string>)
    ensures out == lines + PrivateLines(c)
  {
    out := lines;
    if !c.privates.IsEmpty() {
      c.privates.ExportedEmptyIff(1, false);
      out := c.privates.ExportToLines(out + ["private:"], 1, false);
      PopAppended(lines + ["private:"], c.privates.Exported(1, false));
      out := out[..|out| - 1];
      Regroup2(lines, ["private:"], DropLast(c.privates.Exported(1, false)));
    }
  }

  /** Appends the lines of one class. */
  method PushClass(lines: seq<string>, c: ClassEntry) returns (out: seq<string>)
    ensures out == lines + ClassLines(c)
  {
    out := PushPublic(lines + [c.content], c);
    out := PushPrivate(out, c);
    out := out + ["};", ""];
    Regroup(lines, [c.content], PublicLines(c), PrivateLines(c), ["};", ""]);
  }

  lemma ClassesSnoc(classes: seq<ClassEntry>, i: nat)
    requires i < |classes|
    ensures ClassesLines(classes[..i + 1]) == ClassesLines(classes[..i]) + ClassLines(classes[i])
  {
    assert classes[..i + 1][..i] == classes[..i];
  }

  /** Appends the system block. */
  method PushSystemBlock(lines: seq<string>, contextHeaders: seq<Header>, systemIncludes: seq<string>) returns (out: seq<string>)
    ensures out == lines + SystemBlock(contextHeaders, systemIncludes)
  {
    out := lines;
    if contextHeaders != [] || systemIncludes != [] {
      ghost var heads := IncludeLines(HeaderPaths(contextHeaders), System);
      ghost var systems := IncludeLines(systemIncludes, System);
      out := PushIncludes(out, HeaderPaths(contextHeaders), System);
      out := PushIncludes(out, systemIncludes, System);
      out := out + [""];
      Regroup3(lines, heads, systems, [""]);
    }
  }

  /** Appends the local block. */
  method PushLocalBlock(lines: seq<string>, localIncludes: seq<string>) returns (out: seq<string>)
    ensures out == lines + LocalBlock(localIncludes)
  {
    out := lines;
    if localIncludes != [] {
      out := PushIncludes(out, localIncludes, Local);
      out := out + [""];
    }
  }

  /** Appends the guard and the include blocks. */
  method PushTop(stem: string, pragmaGuard: bool, contextHeaders: seq<Header>, systemIncludes: seq<string>, localIncludes: seq<string>)
    returns (header: seq<string>)
    ensures header == HeaderTop(stem, pragmaGuard, contextHeaders, systemIncludes, localIncludes)
  {
    var macroName := Upper(stem) + "_TASTYFILE";
    if pragmaGuard {
      header := ["#pragma once"];
    } else {
      header := ["#ifndef " + macroName, "#define " + macroName];
    }
    header := header + [""];
    ghost var front := header;
    header := PushSystemBlock(header, contextHeaders, systemIncludes);
    ghost var withSystem := header;
    header := PushLocalBlock(header, localIncludes);
    assert header == front + SystemBlock(contextHeaders, systemIncludes) + LocalBlock(localIncludes);
  }

  /** Appends the lines of every class, in order. */
  method PushClasses(lines: seq<string>, classes: seq<ClassEntry>) returns (out: seq<string>)
    ensures out == lines + ClassesLines(classes)
  {
    out := lines;
    assert classes[..0] == [];
    for i := 0 to |classes|
      invariant out == lines + ClassesLines(classes[..i])
    {
      ClassesSnoc(classes, i);
      ghost var done := ClassesLines(classes[..i]);
      ghost var upTo := ClassesLines(classes[..i + 1]);
      ghost var next := ClassLines(classes[i]);
      Regroup2(lines, done, next);
      out := PushClass(out, classes[i]);
      assert out == lines + done + next;
      assert ClassesLines(classes[..i + 1]) == upTo;
    }
    assert classes[..|classes|] == classes;
  }

  /** The header assembly of `transpile_source_file`. */
  method AssembleHeader(stem: string, pragmaGuard: bool, contextHeaders: seq<Header>, systemIncludes: seq<string>, localIncludes: seq<string>,
                        declarations: DeclarationLists, classes: seq<ClassEntry>) returns (header: seq<string>)
    ensures header == HeaderLines(stem, pragmaGuard, contextHeaders, systemIncludes, localIncludes, declarations, classes)
  {
    header := PushTop(stem, pragmaGuard, contextHeaders, systemIncludes, localIncludes);
    header := declarations.ExportToLines(header, 0, true);
    header := PushClasses(header, classes);
    if !pragmaGuard {
      header := header + ["#endif"];
    }
  }
}
