// System.CodeDom.Compiler.IndentedTextWriter as the serializers use it: text
// goes onto the current line, WriteLine ends it, and the indentation of a
// line is fixed by the Indent level at the moment its first text is written.
module Writer {

  /** One output line: its indentation level and its text. */
  datatype Line = Line(indent: nat, text: string)

  /**
   * The lines after appending `more` to `ls`.  When the last line of `ls` is
   * still open, the first line of `more` continues it (and keeps the open
   * line's indentation); otherwise the lines of `more` follow.
   */
  function Join(ls: seq<Line>, open: bool, more: seq<Line>): (r: seq<Line>)
    ensures |ls| <= |r| <= |ls| + |more|
    ensures |more| > 0 ==> |r| > 0
    ensures !open ==> r == ls + more
  {
    if open && |ls| > 0 && |more| > 0 then
      ls[..|ls| - 1] + [Line(ls[|ls| - 1].indent, ls[|ls| - 1].text + more[0].text)] + more[1..]
    else
      ls + more
  }

  /** Writing `a` and then `b` is writing the joined text of `a` and `b`. */
  lemma JoinAssoc(ls: seq<Line>, open: bool, a: seq<Line>, aOpen: bool, b: seq<Line>)
    requires |a| > 0
    ensures Join(Join(ls, open, a), aOpen, b) == Join(ls, open, Join(a, aOpen, b))
  {
    if open && |ls| > 0 {
      JoinAssocOpen(ls, a, aOpen, b);
    } else {
      assert Join(ls, open, a) == ls + a;
      JoinAfter(ls, a, aOpen, b);
    }
  }

  lemma JoinAssocOpen(ls: seq<Line>, a: seq<Line>, aOpen: bool, b: seq<Line>)
    requires |a| > 0 && |ls| > 0
    ensures Join(Join(ls, true, a), aOpen, b) == Join(ls, true, Join(a, aOpen, b))
  {
    var pre, x := ls[..|ls| - 1], ls[|ls| - 1];
    var a' := [Line(x.indent, x.text + a[0].text)] + a[1..];
    assert Join(ls, true, a) == pre + a';
    JoinAfter(pre, a', aOpen, b);
    JoinHead(x, a, aOpen, b);
    var ab := Join(a, aOpen, b);
    assert Join(ls, true, ab) == pre + ([Line(x.indent, x.text + ab[0].text)] + ab[1..]);
  }

  /** Joining onto a first line that an open line `x` has absorbed. */
  lemma JoinHead(x: Line, a: seq<Line>, aOpen: bool, b: seq<Line>)
    requires |a| > 0
    ensures var ab := Join(a, aOpen, b);
            |ab| > 0
            && Join([Line(x.indent, x.text + a[0].text)] + a[1..], aOpen, b)
               == [Line(x.indent, x.text + ab[0].text)] + ab[1..]
  {
    var a' := [Line(x.indent, x.text + a[0].text)] + a[1..];
    var ab := Join(a, aOpen, b);
    if !(aOpen && |b| > 0) {
      assert ab == a + b && ab[0] == a[0] && ab[1..] == a[1..] + b;
    } else if |a| == 1 {
      assert a' == [Line(x.indent, x.text + a[0].text)];
      assert Join(a', aOpen, b) == [Line(x.indent, (x.text + a[0].text) + b[0].text)] + b[1..];
      assert ab == [Line(a[0].indent, a[0].text + b[0].text)] + b[1..];
      assert (x.text + a[0].text) + b[0].text == x.text + (a[0].text + b[0].text);
    } else {
      var n := |a|;
      var y := Line(a[n - 1].indent, a[n - 1].text + b[0].text);
      assert a'[..n - 1] == [Line(x.indent, x.text + a[0].text)] + a[1..n - 1];
      assert a'[n - 1] == a[n - 1];
      assert Join(a', aOpen, b) == a'[..n - 1] + [y] + b[1..];
      assert ab == a[..n - 1] + [y] + b[1..];
      assert ab[0] == a[0];
      assert ab[1..] == a[1..n - 1] + [y] + b[1..];
    }
  }

  /**
   * The calls a serializer makes on the writer: Write, WriteLine, and a
   * change of the Indent level by a step (Indent++ is `Indent(1)`).
   */
  datatype Op = Text(s: string) | EndLine(s: string) | Indent(delta: int)

  /** Everything the writer holds. */
  datatype State = State(lines: seq<Line>, open: bool, indent: nat)

  /** The writer after one call. */
  function Step(st: State, op: Op): State
  {
    match op
    case Text(s) => State(Join(st.lines, st.open, [Line(st.indent, s)]), true, st.indent)
    case EndLine(s) => State(Join(st.lines, st.open, [Line(st.indent, s)]), false, st.indent)
    case Indent(d) => State(st.lines, st.open, if st.indent + d < 0 then 0 else st.indent + d)
  }

  /** The writer after the calls `ops`, made in order. */
  function Run(st: State, ops: seq<Op>): State
    decreases |ops|
  {
    if |ops| == 0 then st else Step(Run(st, ops[..|ops| - 1]), ops[|ops| - 1])
  }

  /** Making the calls `a` and then `b` is making the calls `a + b`. */
  lemma {:induction false} RunAppend(st: State, a: seq<Op>, b: seq<Op>)
    ensures Run(st, a + b) == Run(Run(st, a), b)
    decreases |b|
  {
    if |b| == 0 {
      assert a + b == a;
    } else {
      assert (a + b)[..|a + b| - 1] == a + b[..|b| - 1];
      RunAppend(st, a, b[..|b| - 1]);
    }
  }

  /** What the calls `ops` write on a fresh line at indentation `k`. */
  function Render(ops: seq<Op>, k: nat): State
  {
    Run(State([], false, k), ops)
  }

  /** Appending to a line that is already ended never touches it. */
  lemma JoinAfter(ls: seq<Line>, xs: seq<Line>, open: bool, more: seq<Line>)
    requires open ==> |xs| > 0
    ensures Join(ls + xs, open, more) == ls + Join(xs, open, more)
  {
    if open && |more| > 0 {
      assert (ls + xs)[..|ls + xs| - 1] == ls + xs[..|xs| - 1];
    }
  }

  /**
   * From an ended line, the calls leave what was written before untouched
   * and add exactly what they would write on their own.
   */
  lemma {:induction false} RunFromEnded(st: State, ops: seq<Op>)
    requires !st.open
    ensures Run(st, ops) == State(st.lines + Render(ops, st.indent).lines,
                                  Render(ops, st.indent).open, Render(ops, st.indent).indent)
    ensures Render(ops, st.indent).open ==> |Render(ops, st.indent).lines| > 0
    decreases |ops|
  {
    if |ops| > 0 {
      var p := ops[..|ops| - 1];
      RunFromEnded(st, p);
      RunFromEnded(State([], false, st.indent), p);
      var r := Render(p, st.indent);
      match ops[|ops| - 1]
      case Text(s) => JoinAfter(st.lines, r.lines, r.open, [Line(r.indent, s)]);
      case EndLine(s) => JoinAfter(st.lines, r.lines, r.open, [Line(r.indent, s)]);
      case Indent(d) =>
    }
  }

  /**
   * Rendering `a + b`, where `a` ends its last line, is rendering `a` and
   * then `b` at the indentation `a` leaves.
   */
  lemma RenderAppend(a: seq<Op>, b: seq<Op>, k: nat)
    requires !Render(a, k).open
    ensures Render(a + b, k) == State(Render(a, k).lines + Render(b, Render(a, k).indent).lines,
                                      Render(b, Render(a, k).indent).open,
                                      Render(b, Render(a, k).indent).indent)
  {
    RunAppend(State([], false, k), a, b);
    RunFromEnded(Render(a, k), b);
  }

  /** The text of a run of Write calls. */
  function Concat(ops: seq<Op>): string
    requires forall i :: 0 <= i < |ops| ==> !ops[i].Indent?
  {
    if |ops| == 0 then "" else Concat(ops[..|ops| - 1]) + ops[|ops| - 1].s
  }

  lemma {:induction false} ConcatAppend(a: seq<Op>, b: seq<Op>)
    requires forall i :: 0 <= i < |a| ==> !a[i].Indent?
    requires forall i :: 0 <= i < |b| ==> !b[i].Indent?
    ensures Concat(a + b) == Concat(a) + Concat(b)
    decreases |b|
  {
    if |b| == 0 {
      assert a + b == a;
    } else {
      var ab, b' := a + b, b[..|b| - 1];
      assert ab[..|ab| - 1] == a + b' && ab[|ab| - 1] == b[|b| - 1];
      ConcatAppend(a, b');
      assert Concat(ab) == Concat(a + b') + b[|b| - 1].s;
      assert Concat(b) == Concat(b') + b[|b| - 1].s;
    }
  }

  /** One more Write adds its text at the end. */
  lemma ConcatSnoc(a: seq<Op>, s: string)
    requires forall i :: 0 <= i < |a| ==> !a[i].Indent?
    ensures Concat(a + [Text(s)]) == Concat(a) + s
  {
    assert (a + [Text(s)])[..|a|] == a;
  }

  /** Calls made one run after another, grouped either way. */
  lemma AppendAssoc(a: seq<Op>, b: seq<Op>, c: seq<Op>)
    ensures a + (b + c) == (a + b) + c
  {
  }

  /** Five runs of calls made one after another. */
  lemma AppendAssoc5(t: seq<Op>, a: seq<Op>, b: seq<Op>, c: seq<Op>, d: seq<Op>, e: seq<Op>)
    ensures t + (a + b + c + d + e) == t + a + b + c + d + e
  {
    AppendAssoc(t, a + b + c + d, e);
    AppendAssoc(t, a + b + c, d);
    AppendAssoc(t, a + b, c);
    AppendAssoc(t, a, b);
  }

  /** The calls `ops` write the ended lines `ls` and leave the indentation at `k`. */
  predicate Block(ops: seq<Op>, k: nat, ls: seq<Line>)
  {
    Render(ops, k) == State(ls, false, k)
  }

  lemma BlockAppend(a: seq<Op>, b: seq<Op>, k: nat, la: seq<Line>, lb: seq<Line>)
    requires Block(a, k, la) && Block(b, k, lb)
    ensures Block(a + b, k, la + lb)
  {
    RenderAppend(a, b, k);
  }

  /** Indent++, a block one level in, Indent-- is that block at the outer level. */
  lemma BlockIndented(b: seq<Op>, k: nat, lb: seq<Line>)
    requires Block(b, k + 1, lb)
    ensures Block([Indent(1)] + b + [Indent(-1)], k, lb)
  {
    assert [Indent(1)][..0] == [];
    assert Render([Indent(1)], k) == State([], false, k + 1);
    RenderAppend([Indent(1)], b, k);
    assert Render([Indent(1)] + b, k) == State(lb, false, k + 1);
    RenderAppend([Indent(1)] + b, [Indent(-1)], k);
    assert [Indent(-1)][..0] == [];
  }

  /** A block, then one Write: the block's lines and an open line of that text. */
  lemma BlockThenText(a: seq<Op>, k: nat, la: seq<Line>, s: string)
    requires Block(a, k, la)
    ensures Render(a + [Text(s)], k) == State(la + [Line(k, s)], true, k)
  {
    RenderAppend(a, [Text(s)], k);
  }

  /** A line made of Write calls and a final WriteLine is a block of one line. */
  lemma LineBlock(texts: seq<Op>, last: string, k: nat)
    requires AllText(texts)
    ensures Block(texts + [EndLine(last)], k, [Line(k, Concat(texts) + last)])
  {
    RenderLine(texts, last, k);
  }

  /**
   * A header line of Write calls ended by WriteLine(" {"), a block one level
   * in, and WriteLine("}") at the outer level.
   */
  lemma BlockBraced(head: seq<Op>, body: seq<Op>, k: nat, lb: seq<Line>)
    requires AllText(head) && Block(body, k + 1, lb)
    ensures Block(head + [EndLine(" {"), Indent(1)] + body + [Indent(-1), EndLine("}")], k,
                  [Line(k, Concat(head) + " {")] + lb + [Line(k, "}")])
  {
    var opening := head + [EndLine(" {")];
    var inner := [Indent(1)] + body + [Indent(-1)];
    var closing: seq<Op> := [EndLine("}")];
    LineBlock(head, " {", k);
    BlockIndented(body, k, lb);
    BlockAppend(opening, inner, k, [Line(k, Concat(head) + " {")], lb);
    ClosingBlock(k);
    BlockAppend(opening + inner, closing, k, [Line(k, Concat(head) + " {")] + lb, [Line(k, "}")]);
    BracedCalls(head, body);
  }

  lemma ClosingBlock(k: nat)
    ensures Block([EndLine("}")], k, [Line(k, "}")])
  {
    LineBlock([], "}", k);
    assert [] + [EndLine("}")] == [EndLine("}")] && Concat([]) + "}" == "}";
  }

  lemma BracedCalls(head: seq<Op>, body: seq<Op>)
    ensures head + [EndLine(" {"), Indent(1)] + body + [Indent(-1), EndLine("}")]
         == (head + [EndLine(" {")]) + ([Indent(1)] + body + [Indent(-1)]) + [EndLine("}")]
  {
  }

  /** WriteLine() after an open line ends it and adds no text. */
  lemma EndOpenLine(a: seq<Op>, k: nat, la: seq<Line>)
    requires Render(a, k) == State(la, true, k)
    ensures Block(a + [EndLine("")], k, la)
  {
    RunFromEnded(State([], false, k), a);
    RunAppend(State([], false, k), a, [EndLine("")]);
    assert Render(a + [EndLine("")], k) == Step(State(la, true, k), EndLine(""));
    var last := la[|la| - 1];
    assert last.text + "" == last.text;
    assert la[..|la| - 1] + [Line(last.indent, last.text + "")] == la;
  }

  // The text of a fixed run of Write calls, for runs of one to eight calls.

  lemma Concat1(a: string)
    ensures Concat([Text(a)]) == a
  {
    ConcatSnoc([], a);
    assert [Text(a)] == [] + [Text(a)];
  }

  lemma Concat2(a: string, b: string)
    ensures Concat([Text(a), Text(b)]) == a + b
  {
    Concat1(a);
    assert [Text(a), Text(b)] == [Text(a)] + [Text(b)];
    ConcatSnoc([Text(a)], b);
  }

  lemma Concat3(a: string, b: string, c: string)
    ensures Concat([Text(a), Text(b), Text(c)]) == a + b + c
  {
    Concat2(a, b);
    assert [Text(a), Text(b), Text(c)] == [Text(a), Text(b)] + [Text(c)];
    ConcatSnoc([Text(a), Text(b)], c);
  }

  lemma Concat4(a: string, b: string, c: string, d: string)
    ensures Concat([Text(a), Text(b), Text(c), Text(d)]) == a + b + c + d
  {
    Concat3(a, b, c);
    assert [Text(a), Text(b), Text(c), Text(d)] == [Text(a), Text(b), Text(c)] + [Text(d)];
    ConcatSnoc([Text(a), Text(b), Text(c)], d);
  }

  lemma Concat5(a: string, b: string, c: string, d: string, e: string)
    ensures Concat([Text(a), Text(b), Text(c), Text(d), Text(e)]) == a + b + c + d + e
  {
    Concat4(a, b, c, d);
    assert [Text(a), Text(b), Text(c), Text(d), Text(e)] == [Text(a), Text(b), Text(c), Text(d)] + [Text(e)];
    ConcatSnoc([Text(a), Text(b), Text(c), Text(d)], e);
  }

  lemma Concat6(a: string, b: string, c: string, d: string, e: string, f: string)
    ensures Concat([Text(a), Text(b), Text(c), Text(d), Text(e), Text(f)]) == a + b + c + d + e + f
  {
    Concat5(a, b, c, d, e);
    assert [Text(a), Text(b), Text(c), Text(d), Text(e), Text(f)] == [Text(a), Text(b), Text(c), Text(d), Text(e)] + [Text(f)];
    ConcatSnoc([Text(a), Text(b), Text(c), Text(d), Text(e)], f);
  }

  lemma Concat7(a: string, b: string, c: string, d: string, e: string, f: string, g: string)
    ensures Concat([Text(a), Text(b), Text(c), Text(d), Text(e), Text(f), Text(g)]) == a + b + c + d + e + f + g
  {
    Concat6(a, b, c, d, e, f);
    assert [Text(a), Text(b), Text(c), Text(d), Text(e), Text(f), Text(g)] == [Text(a), Text(b), Text(c), Text(d), Text(e), Text(f)] + [Text(g)];
    ConcatSnoc([Text(a), Text(b), Text(c), Text(d), Text(e), Text(f)], g);
  }

  lemma Concat8(a: string, b: string, c: string, d: string, e: string, f: string, g: string, h: string)
    ensures Concat([Text(a), Text(b), Text(c), Text(d), Text(e), Text(f), Text(g), Text(h)]) == a + b + c + d + e + f + g + h
  {
    Concat7(a, b, c, d, e, f, g);
    assert [Text(a), Text(b), Text(c), Text(d), Text(e), Text(f), Text(g), Text(h)] == [Text(a), Text(b), Text(c), Text(d), Text(e), Text(f), Text(g)] + [Text(h)];
    ConcatSnoc([Text(a), Text(b), Text(c), Text(d), Text(e), Text(f), Text(g)], h);
  }

  /** Only Write calls. */
  predicate AllText(ops: seq<Op>)
  {
    forall i :: 0 <= i < |ops| ==> ops[i].Text?
  }

  /** Write calls on a fresh line make one open line holding their text. */
  lemma {:induction false} RenderTexts(ops: seq<Op>, k: nat)
    requires |ops| > 0 && AllText(ops)
    ensures Render(ops, k) == State([Line(k, Concat(ops))], true, k)
    decreases |ops|
  {
    var p := ops[..|ops| - 1];
    assert Render(ops, k) == Step(Render(p, k), ops[|ops| - 1]);
    if |ops| > 1 {
      RenderTexts(p, k);
    } else {
      assert p == [] && Concat(ops) == Concat(p) + ops[0].s;
      assert Concat(p) + ops[0].s == ops[0].s;
    }
  }

  /**
   * Write calls followed by one WriteLine make exactly one line, at the
   * indentation of the start, holding all their text.
   */
  lemma RenderLine(texts: seq<Op>, last: string, k: nat)
    requires AllText(texts)
    ensures Render(texts + [EndLine(last)], k) == State([Line(k, Concat(texts) + last)], false, k)
  {
    var ops := texts + [EndLine(last)];
    assert ops[..|ops| - 1] == texts;
    assert Render(ops, k) == Step(Render(texts, k), EndLine(last));
    assert Concat(ops) == Concat(texts) + last;
    if |texts| > 0 {
      RenderTexts(texts, k);
      assert Join([Line(k, Concat(texts))], true, [Line(k, last)]) == [Line(k, Concat(texts) + last)];
    } else {
      assert Concat(texts) + last == last;
    }
  }

  /**
   * The calls a serializer makes before it returns or throws; `ok` is false
   * when it stopped on an exception after making the calls `ops`.
   */
  datatype Trace = Trace(ops: seq<Op>, ok: bool)

  /** Calls that cannot throw. */
  function Emit(ops: seq<Op>): Trace
  {
    Trace(ops, true)
  }

  /** `a` and, unless it threw, `b` after it. */
  function Then(a: Trace, b: Trace): Trace
  {
    if a.ok then Trace(a.ops + b.ops, b.ok) else a
  }

  /**
   * The writer.  What it holds is fixed by the calls made on it, so it is
   * kept as that sequence of calls; its text is `Output()`.
   */
  class IndentedWriter {
    var trace: seq<Op>

    constructor ()
      ensures trace == []
    {
      trace := [];
    }

    /** The lines written so far, whether the last is still open, and the Indent level. */
    function Output(): State
      reads this
    {
      Render(trace, 0)
    }

    /** TextWriter.Write: the text lands on the current line. */
    method Write(s: string)
      modifies this
      ensures trace == old(trace) + [Text(s)]
    {
      trace := trace + [Text(s)];
    }

    /** TextWriter.WriteLine: the text lands on the current line, which then ends. */
    method WriteLine(s: string)
      modifies this
      ensures trace == old(trace) + [EndLine(s)]
    {
      trace := trace + [EndLine(s)];
    }

    /**
     * Indent++ and Indent--: the Indent setter with the level one step away;
     * Step stores a negative level as zero, as the setter does.
     */
    method StepIndent(delta: int)
      modifies this
      ensures trace == old(trace) + [Indent(delta)]
    {
      trace := trace + [Indent(delta)];
    }
  }

  /** Each call changes the output exactly as Step says. */
  lemma OutputStep(before: seq<Op>, op: Op)
    ensures Render(before + [op], 0) == Step(Render(before, 0), op)
  {
    assert (before + [op])[..|before|] == before;
  }
}
