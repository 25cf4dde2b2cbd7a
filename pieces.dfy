/**
 * The text the emitter's loops build piece by piece: separators written
 * between list elements by index tests, the `%s` verbs of a format string
 * and the `, value` argument tail of `fmt.Sprintf`. Each loop is stated as
 * the sequence of pieces it appends, and proved equal to a `join`.
 */
module Pieces {
  import opened JsStrings

  /** The pieces appended one after the other. */
  function Concat(pieces: seq<string>): string
    decreases |pieces|
  {
    if pieces == [] then "" else pieces[0] + Concat(pieces[1..])
  }

  lemma {:induction false} ConcatAppend(pieces: seq<string>, x: string)
    ensures Concat(pieces + [x]) == Concat(pieces) + x
    decreases |pieces|
  {
    if pieces == [] {
      assert pieces + [x] == [x];
      assert Concat([x]) == x + Concat([]);
      assert x + "" == x;
    } else {
      assert (pieces + [x])[1..] == pieces[1..] + [x];
      ConcatAppend(pieces[1..], x);
    }
  }

  lemma JoinStep(items: seq<string>, sep: string, k: nat)
    requires 1 <= k < |items|
    ensures Join(items[..k + 1], sep) == Join(items[..k], sep) + sep + items[k]
  {
    assert items[..k + 1][..k] == items[..k];
  }

  /**
   * `emitArrayLiteralExpression` and `emitCallExpression`: each element,
   * followed by the separator unless it is the last one.
   */
  function TrailingSeparated(items: seq<string>, sep: string): seq<string> {
    seq(|items|, i requires 0 <= i < |items| => items[i] + if i != |items| - 1 then sep else "")
  }

  /** Separators after all but the last element make the `join` of the elements. */
  lemma TrailingSeparatedJoin(items: seq<string>, sep: string)
    ensures Concat(TrailingSeparated(items, sep)) == Join(items, sep)
  {
    var pieces := TrailingSeparated(items, sep);
    if items != [] {
      TrailingPrefix(items, sep, |items|);
      assert pieces[..|items|] == pieces && items[..|items|] == items;
    }
  }

  lemma {:induction false} TrailingPrefix(items: seq<string>, sep: string, k: nat)
    requires 1 <= k <= |items|
    ensures Concat(TrailingSeparated(items, sep)[..k]) ==
      Join(items[..k], sep) + if k < |items| then sep else ""
    decreases k
  {
    var pieces := TrailingSeparated(items, sep);
    if k == 1 {
      assert pieces[..1] == [pieces[0]];
      assert Concat([pieces[0]]) == pieces[0] + Concat([]);
      assert pieces[0] + "" == pieces[0];
      assert |items[..1]| == 1 && items[..1][0] == items[0];
    } else {
      TrailingPrefix(items, sep, k - 1);
      assert pieces[..k] == pieces[..k - 1] + [pieces[k - 1]];
      ConcatAppend(pieces[..k - 1], pieces[k - 1]);
      JoinStep(items, sep, k - 1);
    }
  }

  /**
   * `emitFunctionDeclaration` (parameters) and `emitObjectLiteralExpression`
   * (members): `open` before the first element, the separator before each
   * later one, and `close` after the last.
   */
  function Bracketed(items: seq<string>, sep: string, open: string, close: string): seq<string> {
    seq(|items|, i requires 0 <= i < |items| =>
      (if i != 0 then sep else open) + items[i] + if i == |items| - 1 then close else "")
  }

  /** Leading separators make the `join`, framed by `open` and `close` when there is an element. */
  lemma BracketedJoin(items: seq<string>, sep: string, open: string, close: string)
    ensures items == [] ==> Concat(Bracketed(items, sep, open, close)) == ""
    ensures items != [] ==> Concat(Bracketed(items, sep, open, close)) == open + Join(items, sep) + close
  {
    var pieces := Bracketed(items, sep, open, close);
    if items != [] {
      BracketedPrefix(items, sep, open, close, |items|);
      assert pieces[..|items|] == pieces && items[..|items|] == items;
    }
  }

  lemma {:induction false} BracketedPrefix(items: seq<string>, sep: string, open: string, close: string, k: nat)
    requires 1 <= k <= |items|
    ensures Concat(Bracketed(items, sep, open, close)[..k]) ==
      open + Join(items[..k], sep) + if k == |items| then close else ""
    decreases k
  {
    var pieces := Bracketed(items, sep, open, close);
    if k == 1 {
      assert pieces[..1] == [pieces[0]];
      assert Concat([pieces[0]]) == pieces[0] + Concat([]);
      assert pieces[0] + "" == pieces[0];
      assert |items[..1]| == 1 && items[..1][0] == items[0];
    } else {
      BracketedPrefix(items, sep, open, close, k - 1);
      assert pieces[..k] == pieces[..k - 1] + [pieces[k - 1]];
      ConcatAppend(pieces[..k - 1], pieces[k - 1]);
      JoinStep(items, sep, k - 1);
      var j := Join(items[..k - 1], sep);
      var tail := if k == |items| then close else "";
      assert open + j + "" == open + j;
      assert pieces[k - 1] == sep + items[k - 1] + tail;
      assert open + j + (sep + items[k - 1] + tail) == open + (j + sep + items[k - 1]) + tail;
    }
  }

  /** The occurrences of `c` in `s`. */
  function CountChar(s: string, c: char): nat
    decreases |s|
  {
    if s == [] then 0 else (if s[0] == c then 1 else 0) + CountChar(s[1..], c)
  }

  lemma {:induction false} CountCharAppend(a: string, b: string, c: char)
    ensures CountChar(a + b, c) == CountChar(a, c) + CountChar(b, c)
    decreases |a|
  {
    if a == [] {
      assert a + b == b;
    } else {
      assert (a + b)[0] == a[0] && (a + b)[1..] == a[1..] + b;
      CountCharAppend(a[1..], b, c);
    }
  }

  lemma {:induction false} CountCharAbsent(s: string, c: char)
    requires c !in s
    ensures CountChar(s, c) == 0
    decreases |s|
  {
    if s != [] {
      CountCharAbsent(s[1..], c);
    }
  }

  /** `emitTemplateExpression`: a `%s` verb for each span, followed by its literal text. */
  function Verbs(literals: seq<string>): seq<string> {
    seq(|literals|, i requires 0 <= i < |literals| => "%s" + literals[i])
  }

  /**
   * When the literal texts hold no `%`, the format string has exactly one
   * verb per span.
   */
  lemma {:induction false} VerbCount(head: string, literals: seq<string>)
    requires '%' !in head && forall i :: 0 <= i < |literals| ==> '%' !in literals[i]
    ensures CountChar(head + Concat(Verbs(literals)), '%') == |literals|
    decreases |literals|
  {
    var verbs := Verbs(literals);
    CountCharAppend(head, Concat(verbs), '%');
    CountCharAbsent(head, '%');
    if literals != [] {
      var n := |literals|;
      VerbCount(head, literals[..n - 1]);
      assert Verbs(literals[..n - 1]) == verbs[..n - 1];
      assert verbs == verbs[..n - 1] + [verbs[n - 1]];
      ConcatAppend(verbs[..n - 1], verbs[n - 1]);
      CountCharAppend(head, Concat(verbs[..n - 1]), '%');
      CountCharAppend(Concat(verbs[..n - 1]), verbs[n - 1], '%');
      CountCharAppend("%s", literals[n - 1], '%');
      CountCharAbsent(literals[n - 1], '%');
      assert CountChar("%s", '%') == 1 by {
        assert "%s"[1..] == "s" && "s"[1..] == [];
      }
    }
  }

  /** `emitTemplateExpression`: `, value` for each expression, in order. */
  function ArgumentTail(values: seq<string>): seq<string> {
    seq(|values|, i requires 0 <= i < |values| => ", " + values[i])
  }

  /** The argument tail is the values joined with `, `, after one more `, `. */
  lemma ArgumentTailJoin(values: seq<string>)
    ensures values == [] ==> Concat(ArgumentTail(values)) == ""
    ensures values != [] ==> Concat(ArgumentTail(values)) == ", " + Join(values, ", ")
  {
    forall i | 0 <= i < |values|
      ensures ArgumentTail(values)[i] == Bracketed(values, ", ", ", ", "")[i]
    {
      assert ", " + values[i] + "" == ", " + values[i];
    }
    assert ArgumentTail(values) == Bracketed(values, ", ", ", ", "");
    BracketedJoin(values, ", ", ", ", "");
    if values != [] {
      assert ", " + Join(values, ", ") + "" == ", " + Join(values, ", ");
    }
  }
}
