// One output .proto file of the model classes (src/LibProtodec/Models/Protobuf.cs):
// its lazily created import set, its top-levels, and the serializer that
// writes the preamble and then each top-level.
module ProtobufFiles {
  import opened Util
  import opened Writer
  import opened Schema
  import opened ProtoWriter
  import opened TopLevels

  /** No name occurs twice: the contents of a HashSet, in the order they were added. */
  predicate Distinct(s: seq<string>)
  {
    forall i, j :: 0 <= i < j < |s| ==> s[i] != s[j]
  }

  /** HashSet.Add on a set created on demand. */
  function WithImport(imports: Option<seq<string>>, name: string): (r: seq<string>)
    requires imports.Some? ==> Distinct(imports.value)
    ensures Distinct(r)
    ensures forall x :: x in r <==> x == name || (imports.Some? && x in imports.value)
    ensures imports.Some? ==> |imports.value| <= |r| && r[..|imports.value|] == imports.value
  {
    var s := if imports.Some? then imports.value else [];
    if name in s then s else s + [name]
  }

  // ---------------------------------------------------------------------
  // The preamble

  const DecompiledComment := "// Decompiled with protodec"

  /** The comment line, and the assembly line iff an assembly name is known. */
  function HeaderOps(assemblyName: Option<string>): seq<Op>
  {
    [EndLine(DecompiledComment)] + (if assemblyName.Some? then [Text("// Assembly: "), EndLine(assemblyName.value)] else [])
  }

  /** `syntax = "proto3";` without an edition, `edition = "E";` with one. */
  function SyntaxLine(edition: Option<string>): string
  {
    if edition.None? then "syntax = \"proto3\";" else "edition = \"" + edition.value + "\";"
  }

  function SyntaxOps(edition: Option<string>): seq<Op>
  {
    [EndLine(""), EndLine(SyntaxLine(edition))]
  }

  function ImportLine(name: string): string
  {
    "import \"" + name + "\";"
  }

  /** One import statement per name, in set order. */
  function ImportListOps(names: seq<string>): seq<Op>
  {
    if |names| == 0 then []
    else ImportListOps(names[..|names| - 1]) + [Text("import \""), Text(names[|names| - 1]), EndLine("\";")]
  }

  /** A blank line and the import statements, iff the set was ever created. */
  function ImportsOps(imports: Option<seq<string>>): seq<Op>
  {
    if imports.None? then [] else [EndLine("")] + ImportListOps(imports.value)
  }

  /** A blank line and the csharp_namespace option, iff a namespace is known. */
  function NamespaceOps(namespace: Option<string>): seq<Op>
  {
    if namespace.None? then [] else [EndLine("")] + OptionOps("csharp_namespace", namespace.value, true)
  }

  function PreambleOps(assemblyName: Option<string>, edition: Option<string>, imports: Option<seq<string>>,
                       namespace: Option<string>): seq<Op>
  {
    HeaderOps(assemblyName) + SyntaxOps(edition) + ImportsOps(imports) + NamespaceOps(namespace)
  }

  function ImportLines(names: seq<string>, k: nat): (r: seq<Line>)
    ensures |r| == |names|
    ensures forall i :: 0 <= i < |names| ==> r[i] == Line(k, ImportLine(names[i]))
  {
    if |names| == 0 then [] else ImportLines(names[..|names| - 1], k) + [Line(k, ImportLine(names[|names| - 1]))]
  }

  function HeaderLines(assemblyName: Option<string>, k: nat): seq<Line>
  {
    [Line(k, DecompiledComment)] + (if assemblyName.Some? then [Line(k, "// Assembly: " + assemblyName.value)] else [])
  }

  function ImportsLines(imports: Option<seq<string>>, k: nat): seq<Line>
  {
    if imports.None? then [] else [Line(k, "")] + ImportLines(imports.value, k)
  }

  function NamespaceLines(namespace: Option<string>, k: nat): seq<Line>
  {
    if namespace.None? then [] else [Line(k, ""), Line(k, OptionLine("csharp_namespace", namespace.value, true))]
  }

  /**
   * The preamble's lines: the protodec comment, the assembly comment iff an
   * assembly name is known, a blank line and the syntax or edition line, a
   * blank line and the imports iff the set exists, and a blank line and the
   * quoted csharp_namespace option iff a namespace is known.
   */
  function PreambleLines(assemblyName: Option<string>, edition: Option<string>, imports: Option<seq<string>>,
                         namespace: Option<string>, k: nat): seq<Line>
  {
    HeaderLines(assemblyName, k) + [Line(k, ""), Line(k, SyntaxLine(edition))] + ImportsLines(imports, k)
    + NamespaceLines(namespace, k)
  }

  lemma {:induction false} RenderImportList(names: seq<string>, k: nat)
    ensures Block(ImportListOps(names), k, ImportLines(names, k))
  {
    if |names| > 0 {
      var p := names[..|names| - 1];
      var x := names[|names| - 1];
      RenderImportList(p, k);
      LineBlock([Text("import \""), Text(x)], "\";", k);
      Concat2("import \"", x);
      assert [Text("import \""), Text(x)] + [EndLine("\";")] == [Text("import \""), Text(x), EndLine("\";")];
      BlockAppend(ImportListOps(p), [Text("import \""), Text(x), EndLine("\";")], k, ImportLines(p, k),
                  [Line(k, ImportLine(x))]);
    }
  }

  /** A WriteLine of fixed text is a one-line block. */
  lemma RenderEndLine(s: string, k: nat)
    ensures Block([EndLine(s)], k, [Line(k, s)])
  {
    LineBlock([], s, k);
    assert [] + [EndLine(s)] == [EndLine(s)];
    assert Concat([]) + s == s;
  }

  /** Two WriteLine calls of fixed text. */
  lemma RenderEndLines(s: string, t: string, k: nat)
    ensures Block([EndLine(s), EndLine(t)], k, [Line(k, s), Line(k, t)])
  {
    RenderEndLine(s, k);
    RenderEndLine(t, k);
    BlockAppend([EndLine(s)], [EndLine(t)], k, [Line(k, s)], [Line(k, t)]);
    assert [EndLine(s)] + [EndLine(t)] == [EndLine(s), EndLine(t)];
    assert [Line(k, s)] + [Line(k, t)] == [Line(k, s), Line(k, t)];
  }

  lemma RenderHeader(assemblyName: Option<string>, k: nat)
    ensures Block(HeaderOps(assemblyName), k, HeaderLines(assemblyName, k))
  {
    RenderEndLine(DecompiledComment, k);
    if assemblyName.Some? {
      LineBlock([Text("// Assembly: ")], assemblyName.value, k);
      Concat1("// Assembly: ");
      assert [Text("// Assembly: ")] + [EndLine(assemblyName.value)] == [Text("// Assembly: "), EndLine(assemblyName.value)];
      BlockAppend([EndLine(DecompiledComment)], [Text("// Assembly: "), EndLine(assemblyName.value)], k,
                  [Line(k, DecompiledComment)], [Line(k, "// Assembly: " + assemblyName.value)]);
    } else {
      assert HeaderOps(assemblyName) == [EndLine(DecompiledComment)];
      assert HeaderLines(assemblyName, k) == [Line(k, DecompiledComment)];
    }
  }

  lemma RenderImports(imports: Option<seq<string>>, k: nat)
    ensures Block(ImportsOps(imports), k, ImportsLines(imports, k))
  {
    if imports.Some? {
      RenderEndLine("", k);
      RenderImportList(imports.value, k);
      BlockAppend([EndLine("")], ImportListOps(imports.value), k, [Line(k, "")], ImportLines(imports.value, k));
    } else {
      assert Render([], k) == State([], false, k);
    }
  }

  lemma RenderNamespace(namespace: Option<string>, k: nat)
    ensures Block(NamespaceOps(namespace), k, NamespaceLines(namespace, k))
  {
    if namespace.Some? {
      RenderEndLine("", k);
      RenderOption("csharp_namespace", namespace.value, true, k);
      BlockAppend([EndLine("")], OptionOps("csharp_namespace", namespace.value, true), k, [Line(k, "")],
                  [Line(k, OptionLine("csharp_namespace", namespace.value, true))]);
    } else {
      assert Render([], k) == State([], false, k);
    }
  }

  lemma RenderPreamble(assemblyName: Option<string>, edition: Option<string>, imports: Option<seq<string>>,
                       namespace: Option<string>, k: nat)
    ensures Block(PreambleOps(assemblyName, edition, imports, namespace), k,
                  PreambleLines(assemblyName, edition, imports, namespace, k))
  {
    var h := HeaderOps(assemblyName);
    var lh := HeaderLines(assemblyName, k);
    var ls := [Line(k, ""), Line(k, SyntaxLine(edition))];
    RenderHeader(assemblyName, k);
    RenderEndLines("", SyntaxLine(edition), k);
    BlockAppend(h, SyntaxOps(edition), k, lh, ls);
    RenderImports(imports, k);
    BlockAppend(h + SyntaxOps(edition), ImportsOps(imports), k, lh + ls, ImportsLines(imports, k));
    RenderNamespace(namespace, k);
    BlockAppend(h + SyntaxOps(edition) + ImportsOps(imports), NamespaceOps(namespace), k,
                lh + ls + ImportsLines(imports, k), NamespaceLines(namespace, k));
  }

  // ---------------------------------------------------------------------
  // The top-level loop

  /** `items` in turn, each after a WriteLine(); the loop stops at the first that throws. */
  function Joined(items: seq<Trace>): Trace
  {
    if |items| == 0 then Emit([])
    else Then(Joined(items[..|items| - 1]), Then(Emit([EndLine("")]), items[|items| - 1]))
  }

  /** The joined calls return exactly when every item does. */
  lemma {:induction false} JoinedOk(items: seq<Trace>)
    ensures Joined(items).ok <==> forall n :: 0 <= n < |items| ==> items[n].ok
  {
    if |items| > 0 {
      var p := items[..|items| - 1];
      JoinedOk(p);
      assert forall n :: 0 <= n < |p| ==> p[n] == items[n];
    }
  }

  /** Once an item has thrown, the later items add nothing. */
  lemma {:induction false} JoinedFailStays(items: seq<Trace>, n: nat)
    requires n <= |items| && !Joined(items[..n]).ok
    ensures Joined(items) == Joined(items[..n])
  {
    if n < |items| {
      var p := items[..|items| - 1];
      assert p[..n] == items[..n];
      JoinedFailStays(p, n);
    } else {
      assert items[..n] == items;
    }
  }

  /** A trace that returned, then a WriteLine() and `t`. */
  lemma LineThenStep(p: Trace, t: Trace, t1: seq<Op>, tb: seq<Op>, ta: seq<Op>)
    requires p.ok && tb == t1 + p.ops && ta == tb + [EndLine("")] + t.ops
    ensures Then(p, Then(Emit([EndLine("")]), t)).ok == t.ok
    ensures ta == t1 + Then(p, Then(Emit([EndLine("")]), t)).ops
  {
    AppendAssoc(t1 + p.ops, [EndLine("")], t.ops);
    AppendAssoc(t1, p.ops, [EndLine("")] + t.ops);
  }

  /** One pass of the loop after a prefix that returned: the WriteLine() and item `n`. */
  lemma JoinedStep(items: seq<Trace>, n: nat, t1: seq<Op>, tb: seq<Op>, ta: seq<Op>)
    requires n < |items| && Joined(items[..n]).ok && tb == t1 + Joined(items[..n]).ops
    requires ta == tb + [EndLine("")] + items[n].ops
    ensures Joined(items[..n + 1]).ok == items[n].ok
    ensures items[n].ok ==> ta == t1 + Joined(items[..n + 1]).ops
    ensures !items[n].ok ==> ta == t1 + Joined(items).ops && !Joined(items).ok
  {
    assert items[..n + 1][..n] == items[..n];
    LineThenStep(Joined(items[..n]), items[n], t1, tb, ta);
    if !items[n].ok {
      JoinedFailStays(items, n + 1);
    }
  }

  /** The calls of each top-level's WriteTo, one per entry of `ts`. */
  function TopLevelTraces(decls: seq<TopLevel>, ts: seq<nat>): seq<Trace>
    requires WellFormed(decls) && forall n :: 0 <= n < |ts| ==> ts[n] < |decls|
  {
    seq(|ts|, n requires 0 <= n < |ts| => TopLevelTrace(decls, ts[n]))
  }

  /** Each top-level after a WriteLine(); the loop stops at the first that throws. */
  function TopLevelsTrace(decls: seq<TopLevel>, ts: seq<nat>): Trace
    requires WellFormed(decls) && forall n :: 0 <= n < |ts| ==> ts[n] < |decls|
  {
    Joined(TopLevelTraces(decls, ts))
  }

  /** The loop over `ts` is the loop over all but its last entry, and then the last. */
  lemma TopLevelsUnfold(decls: seq<TopLevel>, ts: seq<nat>)
    requires WellFormed(decls) && (forall n :: 0 <= n < |ts| ==> ts[n] < |decls|) && |ts| > 0
    ensures TopLevelsTrace(decls, ts)
            == Then(TopLevelsTrace(decls, ts[..|ts| - 1]), Then(Emit([EndLine("")]), TopLevelTrace(decls, ts[|ts| - 1])))
  {
    var items := TopLevelTraces(decls, ts);
    assert items[..|ts| - 1] == TopLevelTraces(decls, ts[..|ts| - 1]);
  }

  /**
   * The lines of the top-levels.  The WriteLine() before the first one ends
   * the preamble's blank line; the one before each later top-level only ends
   * the `}` line its predecessor left open, so no blank line separates them.
   */
  function TopLevelsLines(decls: seq<TopLevel>, ts: seq<nat>, k: nat): seq<Line>
    requires WellFormed(decls) && forall n :: 0 <= n < |ts| ==> ts[n] < |decls|
  {
    if |ts| == 0 then []
    else
      TopLevelsLines(decls, ts[..|ts| - 1], k) + (if |ts| == 1 then [Line(k, "")] else [])
      + TopLevelLines(decls, ts[|ts| - 1], k)
  }

  /** The top-level loop, when nothing throws, leaves the last `}` open iff there is a top-level. */
  lemma {:induction false} RenderTopLevels(decls: seq<TopLevel>, ts: seq<nat>, k: nat)
    requires WellFormed(decls) && forall n :: 0 <= n < |ts| ==> ts[n] < |decls|
    requires TopLevelsTrace(decls, ts).ok
    ensures Render(TopLevelsTrace(decls, ts).ops, k) == State(TopLevelsLines(decls, ts, k), |ts| > 0, k)
  {
    if |ts| > 0 {
      var p := ts[..|ts| - 1];
      var t := TopLevelTrace(decls, ts[|ts| - 1]);
      var pt := TopLevelsTrace(decls, p);
      TopLevelsUnfold(decls, ts);
      RenderTopLevels(decls, p, k);
      RenderTopLevel(decls, ts[|ts| - 1], k);
      AppendAssoc(pt.ops, [EndLine("")], t.ops);
      var lp := TopLevelsLines(decls, p, k);
      if |p| == 0 {
        RenderEndLine("", k);
        assert pt.ops + [EndLine("")] == [EndLine("")];
        assert lp + [Line(k, "")] == [Line(k, "")];
      } else {
        EndOpenLine(pt.ops, k, lp);
        assert lp + [] == lp;
      }
      RenderAppend(pt.ops + [EndLine("")], t.ops, k);
    }
  }

  /** The loop returns exactly when every top-level can be written. */
  lemma TopLevelsOk(decls: seq<TopLevel>, ts: seq<nat>)
    requires WellFormed(decls) && forall n :: 0 <= n < |ts| ==> ts[n] < |decls|
    ensures TopLevelsTrace(decls, ts).ok <==> forall n :: 0 <= n < |ts| ==> Writable(decls, ts[n])
  {
    var items := TopLevelTraces(decls, ts);
    JoinedOk(items);
    forall n | 0 <= n < |ts|
      ensures items[n].ok <==> Writable(decls, ts[n])
    {
      TopLevelOk(decls, ts[n]);
    }
  }

  // ---------------------------------------------------------------------
  // The file

  /** The text written for a file whose every top-level can be written. */
  function FileLines(decls: seq<TopLevel>, assemblyName: Option<string>, edition: Option<string>,
                     imports: Option<seq<string>>, namespace: Option<string>, ts: seq<nat>): seq<Line>
    requires WellFormed(decls) && forall n :: 0 <= n < |ts| ==> ts[n] < |decls|
  {
    PreambleLines(assemblyName, edition, imports, namespace, 0) + TopLevelsLines(decls, ts, 0)
  }

  function FileTrace(decls: seq<TopLevel>, assemblyName: Option<string>, edition: Option<string>,
                     imports: Option<seq<string>>, namespace: Option<string>, ts: seq<nat>): Trace
    requires WellFormed(decls) && forall n :: 0 <= n < |ts| ==> ts[n] < |decls|
  {
    Then(Emit(PreambleOps(assemblyName, edition, imports, namespace)), TopLevelsTrace(decls, ts))
  }

  /**
   * On a fresh writer, a file returns exactly when its top-levels can all be
   * written, and then its text is the preamble followed by the top-levels.
   */
  lemma RenderFile(decls: seq<TopLevel>, assemblyName: Option<string>, edition: Option<string>,
                   imports: Option<seq<string>>, namespace: Option<string>, ts: seq<nat>)
    requires WellFormed(decls) && forall n :: 0 <= n < |ts| ==> ts[n] < |decls|
    ensures FileTrace(decls, assemblyName, edition, imports, namespace, ts).ok
            <==> forall n :: 0 <= n < |ts| ==> Writable(decls, ts[n])
    ensures FileTrace(decls, assemblyName, edition, imports, namespace, ts).ok ==>
              Render(FileTrace(decls, assemblyName, edition, imports, namespace, ts).ops, 0)
              == State(FileLines(decls, assemblyName, edition, imports, namespace, ts), |ts| > 0, 0)
  {
    TopLevelsOk(decls, ts);
    var pre := PreambleOps(assemblyName, edition, imports, namespace);
    RenderPreamble(assemblyName, edition, imports, namespace, 0);
    if TopLevelsTrace(decls, ts).ok {
      RenderTopLevels(decls, ts, 0);
      RenderAppend(pre, TopLevelsTrace(decls, ts).ops, 0);
    }
  }

  /** src/LibProtodec/Models/Protobuf.cs: one output file. */
  class Protobuf {
    /** `_imports`: null until Imports is first read. */
    var imports: Option<seq<string>>
    var topLevels: seq<nat>
    var edition: Option<string>
    const assemblyName: Option<string>
    const namespace: Option<string>

    ghost predicate Valid()
      reads this
    {
      imports.Some? ==> Distinct(imports.value)
    }

    constructor (assemblyName: Option<string>, namespace: Option<string>)
      ensures Valid() && imports == None && topLevels == [] && edition == None
      ensures this.assemblyName == assemblyName && this.namespace == namespace
    {
      this.assemblyName := assemblyName;
      this.namespace := namespace;
      imports := None;
      topLevels := [];
      edition := None;
    }

    /** The Imports getter: `_imports ??= []`. */
    method Imports() returns (r: seq<string>)
      requires Valid()
      modifies this
      ensures Valid() && imports == Some(r)
      ensures r == if old(imports).Some? then old(imports).value else []
      ensures topLevels == old(topLevels) && edition == old(edition)
    {
      if imports.None? {
        imports := Some([]);
      }
      r := imports.value;
    }

    /** Imports.Add(name). */
    method AddImport(name: string)
      requires Valid()
      modifies this
      ensures Valid() && imports == Some(WithImport(old(imports), name))
      ensures topLevels == old(topLevels) && edition == old(edition)
    {
      var s := Imports();
      if name !in s {
        imports := Some(s + [name]);
      }
    }

    /** TopLevels.Add(topLevel). */
    method AddTopLevel(topLevel: nat)
      modifies this
      ensures topLevels == old(topLevels) + [topLevel]
      ensures imports == old(imports) && edition == old(edition)
    {
      topLevels := topLevels + [topLevel];
    }

    /** The first top-level's name and ".proto", or ".proto" alone when there is none. */
    function FileName(decls: seq<TopLevel>): (r: string)
      requires forall n :: 0 <= n < |topLevels| ==> topLevels[n] < |decls|
      reads this
      ensures EndsWith(r, ".proto")
      ensures |topLevels| == 0 ==> r == ".proto"
      ensures |topLevels| > 0 ==> StartsWith(r, decls[topLevels[0]].name) && |r| == |decls[topLevels[0]].name| + 6
    {
      (if |topLevels| == 0 then "" else decls[topLevels[0]].name) + ".proto"
    }

    /** Protobuf.WriteTo: the preamble, then a WriteLine() and each top-level in list order. */
    method WriteTo(w: IndentedWriter, decls: seq<TopLevel>) returns (ok: bool)
      requires WellFormed(decls) && forall n :: 0 <= n < |topLevels| ==> topLevels[n] < |decls|
      modifies w
      ensures w.trace == old(w.trace) + FileTrace(decls, assemblyName, edition, imports, namespace, topLevels).ops
      ensures ok == FileTrace(decls, assemblyName, edition, imports, namespace, topLevels).ok
    {
      ghost var t0 := w.trace;
      WritePreamble(w, assemblyName, edition, imports, namespace);
      ghost var pre := PreambleOps(assemblyName, edition, imports, namespace);
      ghost var t1 := w.trace;
      var ts := topLevels;
      ok := true;
      ghost var items := TopLevelTraces(decls, ts);
      for n := 0 to |ts|
        invariant Joined(items[..n]).ok
        invariant w.trace == t1 + Joined(items[..n]).ops
      {
        ghost var tb := w.trace;
        w.WriteLine("");
        ok := WriteTopLevelTo(w, decls, ts[n]);
        assert items[n] == TopLevelTrace(decls, ts[n]);
        JoinedStep(items, n, t1, tb, w.trace);
        if !ok {
          FileOutcome(decls, assemblyName, edition, imports, namespace, ts, t0, t1, w.trace);
          return;
        }
      }
      assert items[..|ts|] == items;
      FileOutcome(decls, assemblyName, edition, imports, namespace, ts, t0, t1, w.trace);
    }
  }

  /** After the preamble and the top-level loop, the file's calls and outcome. */
  lemma FileOutcome(decls: seq<TopLevel>, assemblyName: Option<string>, edition: Option<string>,
                    imports: Option<seq<string>>, namespace: Option<string>, ts: seq<nat>,
                    t0: seq<Op>, t1: seq<Op>, t2: seq<Op>)
    requires WellFormed(decls) && forall n :: 0 <= n < |ts| ==> ts[n] < |decls|
    requires t1 == t0 + PreambleOps(assemblyName, edition, imports, namespace)
    requires t2 == t1 + TopLevelsTrace(decls, ts).ops
    ensures t2 == t0 + FileTrace(decls, assemblyName, edition, imports, namespace, ts).ops
    ensures FileTrace(decls, assemblyName, edition, imports, namespace, ts).ok == TopLevelsTrace(decls, ts).ok
  {
    AppendAssoc(t0, PreambleOps(assemblyName, edition, imports, namespace), TopLevelsTrace(decls, ts).ops);
  }

  /** The preamble of Protobuf.WriteTo. */
  method WritePreamble(w: IndentedWriter, assemblyName: Option<string>, edition: Option<string>,
                       imports: Option<seq<string>>, namespace: Option<string>)
    modifies w
    ensures w.trace == old(w.trace) + PreambleOps(assemblyName, edition, imports, namespace)
  {
    ghost var t0 := w.trace;
    ghost var h := HeaderOps(assemblyName);
    ghost var s := SyntaxOps(edition);
    ghost var i := ImportsOps(imports);
    WriteHeader(w, assemblyName);
    WriteSyntax(w, edition);
    AppendAssoc(t0, h, s);
    WriteImports(w, imports);
    AppendAssoc(t0, h + s, i);
    WriteNamespace(w, namespace);
    AppendAssoc(t0, h + s + i, NamespaceOps(namespace));
  }

  method WriteHeader(w: IndentedWriter, assemblyName: Option<string>)
    modifies w
    ensures w.trace == old(w.trace) + HeaderOps(assemblyName)
  {
    w.WriteLine(DecompiledComment);
    if assemblyName.Some? {
      w.Write("// Assembly: ");
      w.WriteLine(assemblyName.value);
    }
  }

  /** A blank line, then the syntax or edition line. */
  method WriteSyntax(w: IndentedWriter, edition: Option<string>)
    modifies w
    ensures w.trace == old(w.trace) + SyntaxOps(edition)
  {
    w.WriteLine("");
    w.WriteLine(SyntaxLine(edition));
  }

  /** The import block, written iff the import set was ever created. */
  method WriteImports(w: IndentedWriter, imports: Option<seq<string>>)
    modifies w
    ensures w.trace == old(w.trace) + ImportsOps(imports)
  {
    if imports.Some? {
      ghost var t0 := w.trace;
      w.WriteLine("");
      WriteImportList(w, imports.value);
      AppendAssoc(t0, [EndLine("")], ImportListOps(imports.value));
    }
  }

  method WriteNamespace(w: IndentedWriter, namespace: Option<string>)
    modifies w
    ensures w.trace == old(w.trace) + NamespaceOps(namespace)
  {
    if namespace.Some? {
      ghost var t0 := w.trace;
      w.WriteLine("");
      WriteOptionTo(w, "csharp_namespace", namespace.value, true);
      AppendAssoc(t0, [EndLine("")], OptionOps("csharp_namespace", namespace.value, true));
    }
  }

  /** The import loop: `import "x";` for each name. */
  method WriteImportList(w: IndentedWriter, names: seq<string>)
    modifies w
    ensures w.trace == old(w.trace) + ImportListOps(names)
  {
    ghost var t0 := w.trace;
    for n := 0 to |names|
      invariant w.trace == t0 + ImportListOps(names[..n])
    {
      assert names[..n + 1][..n] == names[..n];
      AppendAssoc(t0, ImportListOps(names[..n]), [Text("import \""), Text(names[n]), EndLine("\";")]);
      w.Write("import \"");
      w.Write(names[n]);
      w.WriteLine("\";");
    }
    assert names[..|names|] == names;
  }
}
