/**
 * The indentation-aware line buffer of the code generator (`StringBuilder`).
 *
 * A builder is a list of entries, each a line of text or a nested
 * placeholder builder, whose last entry is always the line being written,
 * plus an indentation counter. The entry-level transitions are stated as
 * functions (`AppendTo`, `AppendLineTo`, `RemoveLineFrom`, `Replay`) and the
 * class's methods are proved against them; rendering is `RenderAsWritten`
 * over the rendered entries.
 */
module StringBuilders {
  import opened Wrappers
  import opened JsStrings

  /** The line terminator, fixed to a line feed. */
  const EOL: string := "\n"

  /** One element of a builder's list: a line, or a placeholder builder. */
  datatype Entry = Line(text: string) | Slot(builder: StringBuilder)

  /** The last entry is a line: the precondition of the current-line accessors. */
  predicate Writable(data: seq<Entry>) {
    |data| > 0 && data[|data| - 1].Line?
  }

  /** The line being written (the `currentLine` getter). */
  function CurrentLine(data: seq<Entry>): string
    requires Writable(data)
  {
    data[|data| - 1].text
  }

  /**
   * `append(value)`: indentation tabs go in front only when the current
   * line is still empty, then the value follows. None is the `RangeError`
   * that `"\t".repeat` raises for a negative count.
   */
  function AppendTo(data: seq<Entry>, indentLevel: int, value: string): (r: Option<seq<Entry>>)
    requires Writable(data)
    ensures r.None? <==> CurrentLine(data) == "" && indentLevel < 0
    ensures r.Some? ==>
      Writable(r.value) && |r.value| == |data| && r.value[..|data| - 1] == data[..|data| - 1]
    ensures r.Some? && CurrentLine(data) != "" ==> CurrentLine(r.value) == CurrentLine(data) + value
    ensures r.Some? && CurrentLine(data) == "" ==>
      (indentLevel >= 0 && CurrentLine(r.value) == RepeatChar('\t', indentLevel) + value)
  {
    var current := CurrentLine(data);
    if current == "" && indentLevel < 0 then None
    else
      var line := if current == "" then RepeatChar('\t', indentLevel) + value else current + value;
      Some(data[..|data| - 1] + [Line(line)])
  }

  /**
   * Two appends in a row write what one append of both values writes:
   * the second never indents, because the first either left text on the
   * line or wrote nothing and left the line to be indented again.
   */
  lemma AppendTwice(data: seq<Entry>, indentLevel: int, a: string, b: string)
    requires Writable(data)
    ensures AppendTo(data, indentLevel, a).Some? ==>
      (AppendTo(AppendTo(data, indentLevel, a).value, indentLevel, b) == AppendTo(data, indentLevel, a + b))
    ensures AppendTo(data, indentLevel, a).None? ==> AppendTo(data, indentLevel, a + b).None?
  {
    var first := AppendTo(data, indentLevel, a);
    if first.Some? {
      var d1 := first.value;
      var second := AppendTo(d1, indentLevel, b);
      var both := AppendTo(data, indentLevel, a + b);
      assert both.Some?;
      assert second.Some?;
      assert d1[..|data| - 1] == data[..|data| - 1];
      assert second.value[..|data| - 1] == data[..|data| - 1];
      assert both.value[..|data| - 1] == data[..|data| - 1];
      assert CurrentLine(second.value) == CurrentLine(both.value);
      assert second.value == second.value[..|data| - 1] + [second.value[|data| - 1]];
      assert both.value == both.value[..|data| - 1] + [both.value[|data| - 1]];
    }
  }

  /**
   * `appendLine(value)`: a non-empty value is appended first, then a new
   * empty line is started; it fails exactly when that append fails.
   */
  function AppendLineTo(data: seq<Entry>, indentLevel: int, value: string): (r: Option<seq<Entry>>)
    requires Writable(data)
    ensures r.None? <==> value != "" && CurrentLine(data) == "" && indentLevel < 0
    ensures r.Some? ==>
      |r.value| == |data| + 1 && r.value[|data|] == Line("") && r.value[..|data| - 1] == data[..|data| - 1]
    ensures r.Some? && value == "" ==> r.value[|data| - 1] == data[|data| - 1]
    ensures r.Some? && value != "" ==> r.value[..|data|] == AppendTo(data, indentLevel, value).value
  {
    if value != "" then
      match AppendTo(data, indentLevel, value)
      case None => None
      case Some(appended) => Some(appended + [Line("")])
    else Some(data + [Line("")])
  }

  /**
   * `removeLine()`: a non-empty current line is cleared; an empty one is
   * dropped. The source then reads the previous entry as the current line,
   * so the caller must make sure that entry is a line.
   */
  function RemoveLineFrom(data: seq<Entry>): (r: seq<Entry>)
    requires Writable(data)
    requires CurrentLine(data) != "" || Writable(data[..|data| - 1])
    ensures Writable(r)
    ensures CurrentLine(data) != "" ==> |r| == |data| && CurrentLine(r) == ""
    ensures CurrentLine(data) == "" ==> |r| == |data| - 1 && r == data[..|data| - 1]
    ensures r[..|r| - 1] == data[..|r| - 1]
  {
    if |CurrentLine(data)| > 0 then data[..|data| - 1] + [Line("")]
    else data[..|data| - 1]
  }

  /** Starting a line and removing it again restores the entries. */
  lemma RemoveLineUndoesAppendLine(data: seq<Entry>, indentLevel: int)
    requires Writable(data)
    ensures AppendLineTo(data, indentLevel, "").Some?
    ensures RemoveLineFrom(AppendLineTo(data, indentLevel, "").value) == data
  {
    var d := AppendLineTo(data, indentLevel, "").value;
    assert d[..|d| - 1] == data;
  }

  /**
   * Removing a written line clears the whole current line, not only the
   * text the last call appended.
   */
  lemma RemoveLineClearsWholeLine(data: seq<Entry>, indentLevel: int, value: string)
    requires Writable(data) && CurrentLine(data) != "" && value != ""
    ensures AppendTo(data, indentLevel, value).Some?
    ensures RemoveLineFrom(AppendTo(data, indentLevel, value).value) ==
      data[..|data| - 1] + [Line("")]
  {
  }

  /** One call on the current builder, as the code generator issues them. */
  datatype Op = Append(value: string) | AppendLine(value: string) | Indent | Unindent

  /** The entries and the indentation counter of a builder. */
  datatype BuilderState = BuilderState(data: seq<Entry>, indentLevel: int)

  /** The state of a builder created by `new StringBuilder()`. */
  const Fresh: BuilderState := BuilderState([Line("")], 0)

  /** The effect of one call; None is the error the call throws. */
  function Step(s: BuilderState, op: Op): (r: Option<BuilderState>)
    requires Writable(s.data)
    ensures r.Some? ==> Writable(r.value.data)
    ensures r.Some? ==> r.value.indentLevel == s.indentLevel + Delta(op)
    ensures r.None? <==>
      (op.Append? || (op.AppendLine? && op.value != "")) && CurrentLine(s.data) == "" && s.indentLevel < 0
  {
    match op
    case Append(v) =>
      (match AppendTo(s.data, s.indentLevel, v)
       case None => None
       case Some(d) => Some(BuilderState(d, s.indentLevel)))
    case AppendLine(v) =>
      (match AppendLineTo(s.data, s.indentLevel, v)
       case None => None
       case Some(d) => Some(BuilderState(d, s.indentLevel)))
    case Indent => Some(s.(indentLevel := s.indentLevel + 1))
    case Unindent => Some(s.(indentLevel := s.indentLevel - 1))
  }

  /** The change an operation makes to the indentation counter. */
  function Delta(op: Op): int {
    match op
    case Indent => 1
    case Unindent => -1
    case _ => 0
  }

  /** The change a sequence of operations makes to the indentation counter. */
  function Net(ops: seq<Op>): int
    decreases |ops|
  {
    if ops == [] then 0 else Delta(ops[0]) + Net(ops[1..])
  }

  /** The calls one after the other, stopping at the first that throws. */
  function Replay(s: BuilderState, ops: seq<Op>): (r: Option<BuilderState>)
    requires Writable(s.data)
    ensures r.Some? ==> Writable(r.value.data) && r.value.indentLevel == s.indentLevel + Net(ops)
    decreases |ops|
  {
    if ops == [] then Some(s)
    else
      match Step(s, ops[0])
      case None => None
      case Some(next) => Replay(next, ops[1..])
  }

  /** Replaying two sequences is replaying the first, then the second. */
  lemma {:induction false} ReplayConcat(s: BuilderState, a: seq<Op>, b: seq<Op>)
    requires Writable(s.data)
    ensures Replay(s, a + b) ==
      (match Replay(s, a)
       case None => None
       case Some(mid) => Replay(mid, b))
    decreases |a|
  {
    if a != [] {
      assert (a + b)[0] == a[0] && (a + b)[1..] == a[1..] + b;
      match Step(s, a[0])
      case None =>
      case Some(next) => ReplayConcat(next, a[1..], b);
    } else {
      assert a + b == b;
    }
  }
  /** One more call after a replayed prefix extends the replay by that call's step. */
  lemma ReplayPrefixStep(start: BuilderState, ops: seq<Op>, i: nat)
    requires Writable(start.data) && i < |ops| && Replay(start, ops[..i]).Some?
    ensures Replay(start, ops[..i + 1]) == Step(Replay(start, ops[..i]).value, ops[i])
  {
    ReplayConcat(start, ops[..i], [ops[i]]);
    assert ops[..i + 1] == ops[..i] + [ops[i]];
    ReplaySingle(Replay(start, ops[..i]).value, ops[i]);
  }

  /** A prefix that throws makes the whole replay throw. */
  lemma {:induction false} ReplayPrefixFails(start: BuilderState, ops: seq<Op>, k: nat)
    requires Writable(start.data) && k <= |ops| && Replay(start, ops[..k]).None?
    ensures Replay(start, ops).None?
    decreases k
  {
    if k > 0 {
      match Step(start, ops[0])
      case None =>
      case Some(next) =>
        assert ops[..k][0] == ops[0] && ops[..k][1..] == ops[1..][..k - 1];
        ReplayPrefixFails(next, ops[1..], k - 1);
    }
  }

  lemma ReplaySingle(s: BuilderState, op: Op)
    requires Writable(s.data)
    ensures Replay(s, [op]) == Step(s, op)
  {
    assert [op][1..] == [];
  }


  lemma {:induction false} NetConcat(a: seq<Op>, b: seq<Op>)
    ensures Net(a + b) == Net(a) + Net(b)
    decreases |a|
  {
    if a != [] {
      assert (a + b)[1..] == a[1..] + b;
      NetConcat(a[1..], b);
    } else {
      assert a + b == b;
    }
  }

  /**
   * The counter starts at `level`, which is not negative, and no prefix of
   * the operations takes it below zero.
   */
  predicate Keeps(level: int, ops: seq<Op>)
    decreases |ops|
  {
    level >= 0 && (ops == [] || Keeps(level + Delta(ops[0]), ops[1..]))
  }

  /** Operations that keep the counter non-negative never make a call throw. */
  lemma {:induction false} KeepsNeverFails(s: BuilderState, ops: seq<Op>)
    requires Writable(s.data) && Keeps(s.indentLevel, ops)
    ensures Replay(s, ops).Some?
    decreases |ops|
  {
    if ops != [] {
      var next := Step(s, ops[0]);
      assert next.Some?;
      KeepsNeverFails(next.value, ops[1..]);
    }
  }

  lemma {:induction false} KeepsConcat(level: int, a: seq<Op>, b: seq<Op>)
    requires Keeps(level, a) && Keeps(level + Net(a), b)
    ensures Keeps(level, a + b)
    decreases |a|
  {
    if a != [] {
      assert (a + b)[0] == a[0] && (a + b)[1..] == a[1..] + b;
      KeepsConcat(level + Delta(a[0]), a[1..], b);
    } else {
      assert a + b == b;
    }
  }

  /** Calls that never indent keep any non-negative level. */
  lemma {:induction false} KeepsFlat(level: int, ops: seq<Op>)
    requires level >= 0 && forall i :: 0 <= i < |ops| ==> Delta(ops[i]) == 0
    ensures Keeps(level, ops) && Net(ops) == 0
    decreases |ops|
  {
    if ops != [] {
      KeepsFlat(level, ops[1..]);
    }
  }

  /**
   * In a sequence of calls, two consecutive appends can be merged into
   * one: the code generator's many small appends are one append of their
   * concatenation.
   */
  lemma MergeAppends(s: BuilderState, a: string, b: string, rest: seq<Op>)
    requires Writable(s.data)
    ensures Replay(s, [Append(a), Append(b)] + rest) == Replay(s, [Append(a + b)] + rest)
  {
    AppendTwice(s.data, s.indentLevel, a, b);
    ReplayConcat(s, [Append(a), Append(b)], rest);
    ReplayConcat(s, [Append(a + b)], rest);
    assert [Append(a), Append(b)][1..] == [Append(b)];
  }

  /** `x` without one trailing line terminator, as `toString` trims each entry. */
  function Strip(x: string): (r: string)
    ensures EndsWith(x, EOL) ==> r + EOL == x
    ensures !EndsWith(x, EOL) ==> r == x
  {
    if EndsWith(x, EOL) then x[..|x| - |EOL|] else x
  }

  function StripAll(texts: seq<string>): seq<string> {
    seq(|texts|, i requires 0 <= i < |texts| => Strip(texts[i]))
  }

  /**
   * `toString` as written: the trimmed entries joined with line
   * terminators, and then the current line once more when it is not empty.
   */
  function RenderAsWritten(texts: seq<string>): string
    requires texts != []
  {
    var result := Join(StripAll(texts), EOL);
    var current := texts[|texts| - 1];
    if |current| > 0 then result + current else result
  }

  /** The rendering `toString` is evidently meant to produce: each entry once. */
  function JoinLines(texts: seq<string>): string {
    Join(StripAll(texts), EOL)
  }

  /**
   * Each entry contributes its trimmed text exactly once, in order, and
   * entries are separated by one line terminator.
   */
  lemma JoinLinesAppend(texts: seq<string>, x: string)
    ensures texts == [] ==> JoinLines(texts + [x]) == Strip(x)
    ensures texts != [] ==> JoinLines(texts + [x]) == JoinLines(texts) + EOL + Strip(x)
  {
    var stripped := StripAll(texts + [x]);
    assert stripped[..|texts|] == StripAll(texts);
    assert stripped[|texts|] == Strip(x);
  }

  /** With an empty current line the rendering as written is the intended one. */
  lemma RenderAgreesOnEmptyLine(texts: seq<string>)
    requires texts != [] && texts[|texts| - 1] == ""
    ensures RenderAsWritten(texts) == JoinLines(texts)
  {
  }

  /**
   * With a non-empty current line the rendering as written ends with that
   * line twice: once from the join and once more after it.
   */
  lemma RenderDoublesCurrentLine(texts: seq<string>)
    requires texts != [] && texts[|texts| - 1] != ""
    ensures RenderAsWritten(texts) ==
      JoinLines(texts[..|texts| - 1] + [texts[|texts| - 1]]) + texts[|texts| - 1]
    ensures EndsWith(RenderAsWritten(texts), Strip(texts[|texts| - 1]) + texts[|texts| - 1])
  {
    var last := texts[|texts| - 1];
    var init := texts[..|texts| - 1];
    assert texts == init + [last];
    JoinLinesAppend(init, last);
    var j := JoinLines(texts);
    var s := Strip(last);
    if init == [] {
      assert j == s;
    } else {
      assert j == JoinLines(init) + EOL + s;
    }
    assert EndsWith(j, s);
    var r := j + last;
    assert r[|r| - |s + last|..] == s + last;
  }

  /** `append("a")` then `appendLine()` then `append("b")`: the `b` comes out twice. */
  lemma DoublingExample()
    ensures RenderAsWritten(["a"]) == "aa"
    ensures RenderAsWritten(["a", "b"]) == "a\nbb"
    ensures JoinLines(["a", "b"]) == "a\nb"
  {
    SingleCharStrip('a');
    SingleCharStrip('b');
    assert StripAll(["a"]) == ["a"];
    assert StripAll(["a", "b"]) == ["a", "b"];
    assert Join(["a", "b"], EOL) == "a" + EOL + "b";
  }

  lemma SingleCharStrip(c: char)
    requires c != '\n'
    ensures Strip([c]) == [c]
  {
    assert [c][0..] == [c];
  }


  /**
   * `StringBuilder`: the entries, the indentation counter and, as ghost
   * state, the objects that make up the builder and its placeholders.
   */
  class StringBuilder {
    var data: seq<Entry>
    var indentLevel: int
    ghost var Repr: set<object>

    /**
     * The last entry is a line, and every placeholder is a well-formed
     * builder whose objects belong to this one and do not include it.
     */
    ghost predicate Valid()
      reads this, Repr
      decreases Repr
    {
      this in Repr && Writable(data) &&
      forall i :: 0 <= i < |data| && data[i].Slot? ==>
        data[i].builder in Repr && data[i].builder.Repr <= Repr &&
        this !in data[i].builder.Repr && data[i].builder.Valid()
    }

    /** Lines 4-5: one empty line and no indentation. */
    constructor()
      ensures Valid() && fresh(Repr) && Repr == {this}
      ensures data == [Line("")] && indentLevel == 0
    {
      data := [Line("")];
      indentLevel := 0;
      Repr := {this};
    }

    /** The state the entry-level functions speak about. */
    function State(): BuilderState
      reads this
    {
      BuilderState(data, indentLevel)
    }

    /** Every entry rendered: a line as it is, a placeholder by its own `toString`. */
    function Texts(): (r: seq<string>)
      requires Valid()
      reads this, Repr
      ensures |r| == |data|
      decreases Repr, 1
    {
      TextsUpTo(|data|)
    }

    function TextsUpTo(k: nat): (r: seq<string>)
      requires Valid() && k <= |data|
      reads this, Repr
      ensures |r| == k
      ensures forall i :: 0 <= i < k && data[i].Line? ==> r[i] == data[i].text
      decreases Repr, 0, k
    {
      if k == 0 then []
      else
        var text := match data[k - 1]
          case Line(t) => t
          case Slot(b) => b.ToString();
        TextsUpTo(k - 1) + [text]
    }

    /** `toString` (lines 55-67). */
    function ToString(): string
      requires Valid()
      reads this, Repr
      decreases Repr, 2
    {
      RenderAsWritten(Texts())
    }

    /** Lines 19-21. */
    method Indent()
      modifies this
      requires Valid()
      ensures Valid() && Repr == old(Repr)
      ensures State() == Step(old(State()), Op.Indent).value
    {
      indentLevel := indentLevel + 1;
    }

    /** Lines 23-25: there is no lower bound. */
    method Unindent()
      modifies this
      requires Valid()
      ensures Valid() && Repr == old(Repr)
      ensures State() == Step(old(State()), Op.Unindent).value
    {
      indentLevel := indentLevel - 1;
    }

    /** Lines 27-32; `Fail` is the `RangeError` of a negative repeat count. */
    method Append(value: string) returns (r: Outcome<string>)
      modifies this
      requires Valid()
      ensures Valid() && Repr == old(Repr) && indentLevel == old(indentLevel)
      ensures AppendTo(old(data), old(indentLevel), value) == if r.Pass? then Some(data) else None
      ensures r.Fail? ==> data == old(data)
    {
      if data[|data| - 1].text == "" {
        if indentLevel < 0 {
          return Fail("Invalid count value");
        }
        data := data[|data| - 1 := Line(data[|data| - 1].text + RepeatChar('\t', indentLevel))];
        assert data[|data| - 1].text == RepeatChar('\t', indentLevel);
      }
      data := data[|data| - 1 := Line(data[|data| - 1].text + value)];
      r := Pass;
      assert data == old(data)[..|data| - 1] + [data[|data| - 1]];
    }

    /** Lines 34-39. */
    method AppendLine(value: string) returns (r: Outcome<string>)
      modifies this
      requires Valid()
      ensures Valid() && Repr == old(Repr) && indentLevel == old(indentLevel)
      ensures AppendLineTo(old(data), old(indentLevel), value) == if r.Pass? then Some(data) else None
      ensures r.Fail? ==> data == old(data)
    {
      if value != "" {
        r := Append(value);
        if r.Fail? {
          return;
        }
      }
      data := data + [Line("")];
      r := Pass;
    }

    /**
     * Lines 41-47. The source reads the entry before a dropped empty line
     * as the new current line, so that entry must be a line.
     */
    method RemoveLine()
      modifies this
      requires Valid()
      requires CurrentLine(data) != "" || Writable(data[..|data| - 1])
      ensures Valid() && Repr == old(Repr) && indentLevel == old(indentLevel)
      ensures data == RemoveLineFrom(old(data))
    {
      if |data[|data| - 1].text| > 0 {
        data := data[|data| - 1 := Line("")];
      } else {
        data := data[..|data| - 1];
      }
    }

    /**
     * Lines 49-53: a fresh builder takes a slot of its own, followed by a
     * new current line, and the caller keeps writing to it.
     */
    method InsertPlaceholder() returns (p: StringBuilder)
      modifies this
      requires Valid()
      ensures Valid() && fresh(p) && p.Valid() && p.Repr == {p}
      ensures p.data == [Line("")] && p.indentLevel == 0
      ensures data == old(data) + [Slot(p), Line("")] && indentLevel == old(indentLevel)
      ensures Repr == old(Repr) + {p}
    {
      p := new StringBuilder();
      data := data + [Slot(p), Line("")];
      Repr := Repr + {p};
    }
  }
}
