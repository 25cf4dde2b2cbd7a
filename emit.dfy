/**
 * `emit` (src/emit.ts lines 8-21) end to end: a new emit context, the
 * preamble and the entry file written to its output builder, and the
 * builder's `toString` as the program text.
 *
 * The calls the emit functions make are replayed one by one on a real
 * `StringBuilder` (`Run`), and the text is proved equal to the rendering of
 * the replayed state (`EmitText`). Because every program ends with a line
 * end, the current line is empty when `toString` runs, so its repetition
 * of a non-empty current line never shows in an emitted program.
 */
module Emitter {
  import opened Wrappers
  import opened JsStrings
  import opened Syntax
  import opened StringBuilders
  import opened EmitContexts
  import opened EmitStatements
  import opened EmitStatementProperties

  /** Every entry is a line: the emitter never inserts a placeholder. */
  predicate AllLines(data: seq<Entry>) {
    forall i :: 0 <= i < |data| ==> data[i].Line?
  }

  /** The texts of entries that are all lines. */
  function LineTexts(data: seq<Entry>): (r: seq<string>)
    requires AllLines(data)
    ensures |r| == |data| && forall i :: 0 <= i < |data| ==> data[i] == Line(r[i])
  {
    seq(|data|, i requires 0 <= i < |data| => data[i].text)
  }

  lemma StepKeepsLines(s: BuilderState, op: Op)
    requires Writable(s.data) && AllLines(s.data)
    ensures Step(s, op).Some? ==> AllLines(Step(s, op).value.data)
  {
    var n := |s.data|;
    match op
    case Append(v) =>
      if Step(s, op).Some? {
        var d := Step(s, op).value.data;
        assert d[..n - 1] == s.data[..n - 1];
        assert forall i :: 0 <= i < n - 1 ==> d[i] == d[..n - 1][i];
      }
    case AppendLine(v) =>
      if Step(s, op).Some? {
        var d := Step(s, op).value.data;
        if v != "" {
          var appended := AppendTo(s.data, s.indentLevel, v).value;
          assert d[..n] == appended && appended[..n - 1] == s.data[..n - 1];
          assert forall i :: 0 <= i < n ==> d[i] == appended[i];
          assert forall i :: 0 <= i < n - 1 ==> appended[i] == appended[..n - 1][i];
        } else {
          assert d == s.data + [Line("")];
        }
      }
    case Indent =>
    case Unindent =>
  }

  /** Replaying the emitter's calls on lines leaves only lines. */
  lemma {:induction false} ReplayKeepsLines(s: BuilderState, ops: seq<Op>)
    requires Writable(s.data) && AllLines(s.data)
    ensures Replay(s, ops).Some? ==> AllLines(Replay(s, ops).value.data)
    decreases |ops|
  {
    if ops != [] {
      StepKeepsLines(s, ops[0]);
      match Step(s, ops[0])
      case None =>
      case Some(next) => ReplayKeepsLines(next, ops[1..]);
    }
  }

  /** Empty, or ending with a line end. */
  predicate Closed(ops: seq<Op>) {
    ops == [] || ops[|ops| - 1] == AppendLine("")
  }

  lemma {:induction false} FlattenClosed(parts: seq<seq<Op>>)
    requires forall i :: 0 <= i < |parts| ==> Closed(parts[i])
    ensures Closed(Flatten(parts))
    decreases |parts|
  {
    if parts != [] {
      FlattenClosed(parts[1..]);
      var rest := Flatten(parts[1..]);
      if rest != [] {
        assert (parts[0] + rest)[|parts[0] + rest| - 1] == rest[|rest| - 1];
      } else {
        assert parts[0] + rest == parts[0];
      }
    }
  }

  /** Lines 126-129 and 132-146: a function ends with a line end, and so does an imported file. */
  lemma {:induction false} SourceFileClosed(env: Env, statements: seq<Statement>, fuel: nat)
    requires EmitSourceFile(env, statements, fuel).Success?
    ensures Closed(EmitSourceFile(env, statements, fuel).value)
    decreases fuel, 1
  {
    var rs := seq(|statements|, i requires 0 <= i < |statements| => EmitTopLevel(env, statements[i], fuel));
    var parts := Collect(rs).value;
    forall i | 0 <= i < |parts|
      ensures Closed(parts[i])
    {
      assert rs[i] == EmitTopLevel(env, statements[i], fuel);
      TopLevelClosed(env, statements[i], fuel);
    }
    FlattenClosed(parts);
  }

  lemma {:induction false} TopLevelClosed(env: Env, s: Statement, fuel: nat)
    requires EmitTopLevel(env, s, fuel).Success?
    ensures Closed(EmitTopLevel(env, s, fuel).value)
    decreases fuel, 0
  {
    match s
    case FunctionDeclaration(id, name, parameters, returnType, body) =>
      FunctionClosed(env, id, name, parameters, returnType, body);
    case ImportDeclaration(_, moduleSpecifier) =>
      SourceFileClosed(env, env.sourceFile(moduleSpecifier), fuel - 1);
  }

  /** Lines 126-129: a function declaration ends with two line ends. */
  lemma FunctionClosed(env: Env, id: NodeId, name: Option<string>, parameters: seq<Parameter>,
                       returnType: Option<NodeId>, body: Option<seq<Statement>>)
    requires EmitFunctionDeclaration(env, id, name, parameters, returnType, body).Success?
    ensures Closed(EmitFunctionDeclaration(env, id, name, parameters, returnType, body).value)
  {
  }

  /** A replay whose last call ends a line leaves an empty current line. */
  lemma ReplayEndsLine(s: BuilderState, ops: seq<Op>)
    requires Writable(s.data) && ops != [] && ops[|ops| - 1] == AppendLine("")
    requires Replay(s, ops).Some?
    ensures CurrentLine(Replay(s, ops).value.data) == ""
  {
    var n := |ops|;
    assert ops == ops[..n - 1] + [AppendLine("")];
    ReplayConcat(s, ops[..n - 1], [AppendLine("")]);
    var mid := Replay(s, ops[..n - 1]).value;
    assert Replay(mid, [AppendLine("")]) == Step(mid, AppendLine(""));
  }

  /** The text `emit` returns, or the error it throws. */
  function EmitText(env: Env, entry: seq<Statement>, fuel: nat): (r: Result<string, EmitFailure>)
    ensures r.Success? <==> EmitProgram(env, entry, fuel).Success?
    ensures r.Failure? ==> r.error == EmitProgram(env, entry, fuel).error
  {
    var ops :- EmitProgram(env, entry, fuel);
    ProgramNeverThrows(env, entry, fuel);
    ReplayKeepsLines(Fresh, ops);
    Success(RenderAsWritten(LineTexts(Replay(Fresh, ops).value.data)))
  }

  /**
   * The rendered program is each line once, joined with line ends: the
   * repeated current line of `toString` never shows, because the program
   * ends with a line end.
   */
  lemma EmitTextJoinsLines(env: Env, entry: seq<Statement>, fuel: nat)
    requires EmitProgram(env, entry, fuel).Success?
    ensures var ops := EmitProgram(env, entry, fuel).value;
      Replay(Fresh, ops).Some? && AllLines(Replay(Fresh, ops).value.data) &&
      CurrentLine(Replay(Fresh, ops).value.data) == "" &&
      EmitText(env, entry, fuel) == Success(JoinLines(LineTexts(Replay(Fresh, ops).value.data)))
  {
    var ops := EmitProgram(env, entry, fuel).value;
    ProgramNeverThrows(env, entry, fuel);
    ProgramClosed(env, entry, fuel);
    ClosedReplay(Fresh, ops);
    RenderAgreesOnEmptyLine(LineTexts(Replay(Fresh, ops).value.data));
  }

  /** A program is the preamble and a closed body, so it ends with a line end. */
  lemma ProgramClosed(env: Env, entry: seq<Statement>, fuel: nat)
    requires EmitProgram(env, entry, fuel).Success?
    ensures var ops := EmitProgram(env, entry, fuel).value;
      ops != [] && ops[|ops| - 1] == AppendLine("")
  {
    var body := EmitSourceFile(env, entry, fuel).value;
    var ops := Preamble() + body;
    SourceFileClosed(env, entry, fuel);
    if body == [] {
      assert ops == Preamble();
    } else {
      assert ops[|ops| - 1] == body[|body| - 1];
    }
  }

  /** A replay on lines that ends with a line end leaves only lines and an empty current line. */
  lemma ClosedReplay(s: BuilderState, ops: seq<Op>)
    requires Writable(s.data) && AllLines(s.data)
    requires ops != [] && ops[|ops| - 1] == AppendLine("") && Replay(s, ops).Some?
    ensures AllLines(Replay(s, ops).value.data)
    ensures CurrentLine(Replay(s, ops).value.data) == ""
  {
    ReplayKeepsLines(s, ops);
    ReplayEndsLine(s, ops);
  }


  /** One builder call made on `b`; `Fail` is the error it throws. */
  method RunOne(b: StringBuilder, op: Op) returns (r: Outcome<string>)
    modifies b
    requires b.Valid()
    ensures b.Valid() && b.Repr == old(b.Repr)
    ensures Step(old(b.State()), op) == if r.Pass? then Some(b.State()) else None
  {
    r := Pass;
    match op {
      case Append(v) => r := b.Append(v);
      case AppendLine(v) => r := b.AppendLine(v);
      case Indent => b.Indent();
      case Unindent => b.Unindent();
    }
  }

  /**
   * The builder calls replayed one by one on `b`, stopping at the first
   * that throws; `ok` says whether all of them went through.
   */
  method Run(b: StringBuilder, ops: seq<Op>) returns (ok: bool)
    modifies b
    requires b.Valid()
    ensures b.Valid() && b.Repr == old(b.Repr)
    ensures ok <==> Replay(old(b.State()), ops).Some?
    ensures ok ==> b.State() == Replay(old(b.State()), ops).value
  {
    ghost var start := b.State();
    var i := 0;
    while i < |ops|
      invariant 0 <= i <= |ops|
      invariant b.Valid() && b.Repr == old(b.Repr) && Writable(start.data)
      invariant Replay(start, ops[..i]) == Some(b.State())
    {
      var r := RunOne(b, ops[i]);
      ReplayPrefixStep(start, ops, i);
      if r.Fail? {
        ReplayPrefixFails(start, ops, i + 1);
        return false;
      }
      i := i + 1;
    }
    assert ops[..i] == ops;
    ok := true;
  }



  /** A builder holding only lines, the last of them empty, renders each line once. */
  lemma RenderLines(b: StringBuilder)
    requires b.Valid() && AllLines(b.data) && CurrentLine(b.data) == ""
    ensures b.ToString() == JoinLines(LineTexts(b.data))
  {
    assert b.Texts() == LineTexts(b.data);
    RenderAgreesOnEmptyLine(LineTexts(b.data));
  }

  /**
   * `emit` (lines 8-21): a new emit context, the preamble and the entry
   * file written to its output builder, and that builder's text.
   */
  method Emit(env: Env, entryName: string, entry: seq<Statement>, fuel: nat) returns (r: Result<string, EmitFailure>)
    ensures r == EmitText(env, entry, fuel)
  {
    var context := new EmitContext(entryName);
    var output := context.GetOutput();
    assert output == context.outputStack.data[0];
    r := EmitInto(output, env, entry, fuel);
  }

  /** The preamble and the entry file written to a fresh builder, and its text. */
  method EmitInto(output: StringBuilder, env: Env, entry: seq<Statement>, fuel: nat) returns (r: Result<string, EmitFailure>)
    modifies output
    requires output.Valid() && output.State() == Fresh
    ensures r == EmitText(env, entry, fuel)
  {
    var ops: seq<Op>;
    match EmitProgram(env, entry, fuel) {
      case Failure(e) => return Failure(e);
      case Success(o) => ops := o;
    }
    EmitTextJoinsLines(env, entry, fuel);
    var ok := Run(output, ops);
    assert output.data == Replay(Fresh, ops).value.data;
    RenderLines(output);
    r := Success(output.ToString());
  }

  /** `appendLine` of each value in turn. */
  function WriteLines(values: seq<string>): seq<Op> {
    seq(|values|, i requires 0 <= i < |values| => AppendLine(values[i]))
  }

  function Lines(values: seq<string>): seq<Entry> {
    seq(|values|, i requires 0 <= i < |values| => Line(values[i]))
  }

  /** At indentation zero, a line written on an empty current line becomes an entry as it is. */
  lemma AppendLineAtZero(prefix: seq<Entry>, v: string)
    ensures Step(BuilderState(prefix + [Line("")], 0), AppendLine(v)) ==
      Some(BuilderState(prefix + [Line(v), Line("")], 0))
  {
    var data := prefix + [Line("")];
    assert CurrentLine(data) == "";
    if v != "" {
      assert RepeatChar('\t', 0) == "";
      assert RepeatChar('\t', 0) + v == v;
      assert data[..|data| - 1] == prefix;
      assert AppendTo(data, 0, v) == Some(prefix + [Line(v)]);
      assert prefix + [Line(v)] + [Line("")] == prefix + [Line(v), Line("")];
    } else {
      assert data + [Line("")] == prefix + [Line(v), Line("")];
    }
  }

  lemma WriteFirstLine(prefix: seq<Entry>, values: seq<string>)
    requires values != []
    ensures Replay(BuilderState(prefix + [Line("")], 0), WriteLines(values)) ==
      Replay(BuilderState((prefix + [Line(values[0])]) + [Line("")], 0), WriteLines(values[1..]))
  {
    AppendLineAtZero(prefix, values[0]);
    assert (prefix + [Line(values[0])]) + [Line("")] == prefix + [Line(values[0]), Line("")];
    assert WriteLines(values)[1..] == WriteLines(values[1..]);
  }

  lemma LinesCons(prefix: seq<Entry>, values: seq<string>)
    requires values != []
    ensures (prefix + [Line(values[0])]) + Lines(values[1..]) == prefix + Lines(values)
  {
    assert Lines(values) == [Line(values[0])] + Lines(values[1..]);
  }

  /**
   * At indentation zero, lines written on an empty current line become
   * entries of their own, and a new empty current line follows.
   */
  lemma {:induction false} WriteLinesAtZero(prefix: seq<Entry>, values: seq<string>)
    ensures Replay(BuilderState(prefix + [Line("")], 0), WriteLines(values)) ==
      Some(BuilderState(prefix + Lines(values) + [Line("")], 0))
    decreases |values|
  {
    if values == [] {
      assert prefix + Lines(values) == prefix;
    } else {
      WriteFirstLine(prefix, values);
      WriteLinesAtZero(prefix + [Line(values[0])], values[1..]);
      LinesCons(prefix, values);
    }
  }

  /** The lines the preamble writes. */
  const PreambleLines: seq<string> := ["package main", "", "import (", "  \"fmt\"", "  \"ts2go/console\"", ")", ""]

  /** Lines 23-31: the preamble writes its seven lines at indentation zero, each as an entry of its own. */
  lemma PreambleState()
    ensures Replay(Fresh, Preamble()) == Some(BuilderState(Lines(PreambleLines) + [Line("")], 0))
  {
    assert Preamble() == WriteLines(PreambleLines);
    assert Fresh == BuilderState([] + [Line("")], 0);
    WriteLinesAtZero([], PreambleLines);
    assert [] + Lines(PreambleLines) == Lines(PreambleLines);
  }
}
