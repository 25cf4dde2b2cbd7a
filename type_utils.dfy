/**
 * The textual type-name normaliser (`mapTypeName` and its helpers): a
 * fixed-order pipeline of string rewrites that recurses on the text
 * between the first `<` and the last `>`.
 */
module TypeUtils {
  import opened Wrappers
  import opened JsStrings

  predicate IsArrayTypeName(typeName: string) {
    StartsWith(typeName, "Array<") && EndsWith(typeName, ">")
  }

  predicate IsPointerTypeName(typeName: string) {
    StartsWith(typeName, "Pointer<") && EndsWith(typeName, ">")
  }

  /** A name is an explicit array name exactly when it is `Array<` + some text + `>`. */
  lemma ArrayWrapperName(typeName: string)
    ensures IsArrayTypeName(typeName) <==> exists arg :: typeName == "Array<" + arg + ">"
  {
    if IsArrayTypeName(typeName) {
      ArrayWrapperSplit(typeName);
    }
    forall arg | typeName == "Array<" + arg + ">"
      ensures IsArrayTypeName(typeName)
    {
      ArrayWrapperBuilt(arg);
    }
  }

  lemma ArrayWrapperSplit(typeName: string)
    requires IsArrayTypeName(typeName)
    ensures |typeName| >= 7 && typeName == "Array<" + typeName[6..|typeName| - 1] + ">"
  {
    assert typeName[..6][5] == '<' && typeName[|typeName| - 1..][0] == '>';
    assert typeName[5] != typeName[|typeName| - 1];
    var arg := typeName[6..|typeName| - 1];
    assert typeName == typeName[..6] + arg + typeName[|typeName| - 1..];
  }

  lemma ArrayWrapperBuilt(arg: string)
    ensures IsArrayTypeName("Array<" + arg + ">")
  {
    var typeName := "Array<" + arg + ">";
    assert typeName[..6] == "Array<";
    assert typeName[|typeName| - 1..] == ">";
  }

  /** A name is a pointer name exactly when it is `Pointer<` + some text + `>`. */
  lemma PointerWrapperName(typeName: string)
    ensures IsPointerTypeName(typeName) <==> exists arg :: typeName == "Pointer<" + arg + ">"
  {
    if IsPointerTypeName(typeName) {
      PointerWrapperSplit(typeName);
    }
    forall arg | typeName == "Pointer<" + arg + ">"
      ensures IsPointerTypeName(typeName)
    {
      PointerWrapperBuilt(arg);
    }
  }

  lemma PointerWrapperSplit(typeName: string)
    requires IsPointerTypeName(typeName)
    ensures |typeName| >= 9 && typeName == "Pointer<" + typeName[8..|typeName| - 1] + ">"
  {
    assert typeName[..8][7] == '<' && typeName[|typeName| - 1..][0] == '>';
    assert typeName[7] != typeName[|typeName| - 1];
    var arg := typeName[8..|typeName| - 1];
    assert typeName == typeName[..8] + arg + typeName[|typeName| - 1..];
  }

  lemma PointerWrapperBuilt(arg: string)
    ensures IsPointerTypeName("Pointer<" + arg + ">")
  {
    var typeName := "Pointer<" + arg + ">";
    assert typeName[..8] == "Pointer<";
    assert typeName[|typeName| - 1..] == ">";
  }

  /**
   * `getGenericTypeNameParams` as written: the text between the first `<`
   * and the last `>`, or "" when either is missing. Through
   * `substring`'s argument swap, a `>` that comes before the `<` yields
   * the text from that `>` through that `<`, both included.
   */
  function GenericTypeNameParams(typeName: string): (r: string)
    ensures IndexOf(typeName, '<') == -1 || LastIndexOf(typeName, '>') == -1 ==> r == ""
    ensures 0 <= IndexOf(typeName, '<') < LastIndexOf(typeName, '>') ==>
      r == typeName[IndexOf(typeName, '<') + 1..LastIndexOf(typeName, '>')]
    ensures 0 <= LastIndexOf(typeName, '>') < IndexOf(typeName, '<') ==>
      r == typeName[LastIndexOf(typeName, '>')..IndexOf(typeName, '<') + 1]
  {
    var openingAngleBracket := IndexOf(typeName, '<');
    var closingAngleBracket := LastIndexOf(typeName, '>');
    if openingAngleBracket != -1 && closingAngleBracket != -1 then
      Substring(typeName, openingAngleBracket + 1, closingAngleBracket)
    else ""
  }

  /** The last `>` comes before the first `<`. */
  predicate Misordered(typeName: string) {
    IndexOf(typeName, '<') != -1 && LastIndexOf(typeName, '>') != -1 &&
    LastIndexOf(typeName, '>') < IndexOf(typeName, '<')
  }

  /**
   * The generic argument text the normaliser recurses on: the text strictly
   * between the first `<` and the last `>`, and "" when either is missing
   * or the `>` comes first. On every name whose brackets are not misordered
   * it is `GenericTypeNameParams`.
   */
  function OrderedTypeNameParams(typeName: string): (r: string)
    ensures |r| < |typeName| || r == ""
    ensures !Misordered(typeName) ==> r == GenericTypeNameParams(typeName)
    ensures Misordered(typeName) ==> r == ""
  {
    var openingAngleBracket := IndexOf(typeName, '<');
    var closingAngleBracket := LastIndexOf(typeName, '>');
    if openingAngleBracket != -1 && closingAngleBracket != -1 && openingAngleBracket < closingAngleBracket then
      typeName[openingAngleBracket + 1..closingAngleBracket]
    else ""
  }

  /**
   * Lines 30-33: trailing `[]` sugar becomes an explicit `Array<...>`
   * (the bounds given to `substring` are in order and in range, so it is a
   * plain slice).
   */
  function DesugarArraySuffix(typeName: string): string {
    if EndsWith(typeName, "[]") then
      "Array<" + typeName[..|typeName| - 2] + ">"
    else typeName
  }

  /**
   * Lines 39-47: the outer name followed by the mapped argument in angle
   * brackets; a `Pointer` whose mapped argument is an array gets the
   * array's own argument instead.
   */
  function ReassembleGeneric(typeName: string, mappedParams: string): (r: string)
    requires '<' in typeName
  {
    var outer := typeName[..IndexOf(typeName, '<')];
    var params :=
      if outer == "Pointer" && IsArrayTypeName(mappedParams) then GenericTypeNameParams(mappedParams)
      else mappedParams;
    outer + "<" + params + ">"
  }

  /** `isFirstCharacterDigit`: the name starts with one of `0`..`9`. */
  predicate IsFirstCharacterDigit(typeName: string) {
    |typeName| > 0 && '0' <= typeName[0] <= '9'
  }

  /**
   * Lines 50-84, in their order: quoted names, numeric literal names, the
   * `number[]` and `ptr<` spellings, then the exact keyword names.
   */
  function NormalizeLiterals(typeName: string): (r: string)
  {
    var quoted := if StartsWith(typeName, "\"") && EndsWith(typeName, "\"") then "string" else typeName;
    var numeric :=
      if IsFirstCharacterDigit(quoted) then (if '.' in quoted then "f64" else "i32") else quoted;
    var numberArray :=
      if Contains(numeric, "number[]") then ReplaceAll(numeric, "number[]", "i32[]") else numeric;
    var pointer :=
      if Contains(numberArray, "ptr<") then ReplaceAll(numberArray, "ptr<", "Pointer<") else numberArray;
    if pointer in {"boolean", "true", "false"} then "bool"
    else if pointer == "number" then "i32"
    else pointer
  }

  /** The generic argument the normaliser recurses on is shorter than its input. */
  lemma ParamsShrink(typeName: string)
    ensures |OrderedTypeNameParams(DesugarArraySuffix(typeName))| < |typeName| ||
      OrderedTypeNameParams(DesugarArraySuffix(typeName)) == ""
  {
    if EndsWith(typeName, "[]") {
      var arg := typeName[..|typeName| - 2];
      var d := DesugarArraySuffix(typeName);
      assert d == "Array<" + arg + ">";
      ArrayParams(arg);
    }
  }

  /** The first `<` of an explicit array name is the one after `Array`. */
  lemma ArrayOpenAt(arg: string)
    ensures IndexOf("Array<" + arg + ">", '<') == 5
  {
    var d := "Array<" + arg + ">";
    assert d[..5] == "Array";
    IndexOfUnique(d, '<', 5);
  }

  /** The last `>` of an explicit array name is its final character. */
  lemma ArrayCloseAt(arg: string)
    ensures LastIndexOf("Array<" + arg + ">", '>') == |arg| + 6
  {
    var d := "Array<" + arg + ">";
    assert d[|d| - 1] == '>' && d[|d|..] == [];
    LastIndexOfUnique(d, '>', |d| - 1);
  }

  /** The argument of an explicit array name is recovered exactly. */
  lemma ArrayParams(arg: string)
    ensures IndexOf("Array<" + arg + ">", '<') == 5
    ensures LastIndexOf("Array<" + arg + ">", '>') == |arg| + 6
    ensures OrderedTypeNameParams("Array<" + arg + ">") == arg
    ensures GenericTypeNameParams("Array<" + arg + ">") == arg
  {
    var d := "Array<" + arg + ">";
    ArrayOpenAt(arg);
    ArrayCloseAt(arg);
    assert d[6..|d| - 1] == arg;
  }

  /**
   * `mapTypeName`: the generic part (lines 30-48) and then the literal
   * rewrites (lines 50-84). The generic argument is taken by
   * `OrderedTypeNameParams` (see `MapTypeNameAsWritten` for the source's
   * own extraction, which loops on misordered brackets).
   */
  function MapTypeName(typeName: string): string
    decreases |typeName|, 1
  {
    NormalizeLiterals(MapGenerics(typeName))
  }

  /**
   * Lines 30-48: trailing `[]` becomes `Array<...>`, and a generic
   * argument is mapped and put back between the brackets.
   */
  function MapGenerics(typeName: string): string
    decreases |typeName|, 0
  {
    var desugared := DesugarArraySuffix(typeName);
    var genericParams := OrderedTypeNameParams(desugared);
    ParamsShrink(typeName);
    if genericParams != "" then
      assert '<' in desugared;
      ReassembleGeneric(desugared, MapTypeName(genericParams))
    else desugared
  }

  /**
   * `mapTypeName` exactly as written, recursing on
   * `GenericTypeNameParams`; `fuel` bounds the depth of recursion and None
   * means the depth was exhausted.
   */
  function MapTypeNameAsWritten(typeName: string, fuel: nat): Option<string>
    decreases fuel, 1
  {
    match MapGenericsAsWritten(typeName, fuel)
    case None => None
    case Some(generic) => Some(NormalizeLiterals(generic))
  }

  /** Lines 30-48 as written, within `fuel` levels of recursion. */
  function MapGenericsAsWritten(typeName: string, fuel: nat): Option<string>
    decreases fuel, 0
  {
    if fuel == 0 then None
    else
      var desugared := DesugarArraySuffix(typeName);
      var genericParams := GenericTypeNameParams(desugared);
      if genericParams == "" then Some(desugared)
      else
        match MapTypeNameAsWritten(genericParams, fuel - 1)
        case None => None
        case Some(mapped) =>
          assert '<' in desugared;
          Some(ReassembleGeneric(desugared, mapped))
  }

  /**
   * The source's recursion ends within `fuel` levels: at each level the
   * name has no generic argument, or its argument ends within one level
   * fewer.
   */
  predicate ReturnsWithin(typeName: string, fuel: nat)
    decreases fuel
  {
    fuel > 0 &&
    var genericParams := GenericTypeNameParams(DesugarArraySuffix(typeName));
    genericParams == "" || ReturnsWithin(genericParams, fuel - 1)
  }

  /** The source's `mapTypeName` returns within `fuel` levels exactly when its recursion ends there. */
  lemma {:induction false} AsWrittenReturnsExactly(typeName: string, fuel: nat)
    ensures MapTypeNameAsWritten(typeName, fuel).Some? <==> ReturnsWithin(typeName, fuel)
    decreases fuel
  {
    if fuel > 0 {
      var p := GenericTypeNameParams(DesugarArraySuffix(typeName));
      if p != "" {
        var f: nat := fuel - 1;
        AsWrittenReturnsExactly(p, f);
        assert ReturnsWithin(typeName, fuel) == ReturnsWithin(p, f);
        assert MapTypeNameAsWritten(typeName, fuel).Some? == MapTypeNameAsWritten(p, f).Some?;
      }
    }
  }

  /** A name that is its own generic argument sends the source round forever. */
  lemma {:induction false} SelfArgumentLoops(typeName: string, fuel: nat)
    requires DesugarArraySuffix(typeName) == typeName
    requires GenericTypeNameParams(typeName) == typeName != ""
    ensures !ReturnsWithin(typeName, fuel)
    decreases fuel
  {
    if fuel > 0 {
      var f: nat := fuel - 1;
      SelfArgumentLoops(typeName, f);
    }
  }

  /**
   * The argument the source takes from a misordered name runs from the
   * `>` to the `<`, and is its own argument from then on: no depth of
   * recursion is ever enough.
   */
  lemma MisorderedNeverTerminates(typeName: string, fuel: nat)
    requires Misordered(DesugarArraySuffix(typeName))
    ensures MapTypeNameAsWritten(typeName, fuel).None?
  {
    MisorderedNeverReturns(typeName, fuel);
    AsWrittenReturnsExactly(typeName, fuel);
  }

  lemma MisorderedNeverReturns(typeName: string, fuel: nat)
    requires Misordered(DesugarArraySuffix(typeName))
    ensures !ReturnsWithin(typeName, fuel)
  {
    if fuel > 0 {
      var p := GenericTypeNameParams(DesugarArraySuffix(typeName));
      assert DesugarArraySuffix(p) == p && GenericTypeNameParams(p) == p != "" by {
        MisorderedParams(DesugarArraySuffix(typeName));
      }
      var f: nat := fuel - 1;
      SelfArgumentLoops(p, f);
    }
  }

  /**
   * A name that runs from a `>` to a `<` with neither character in between
   * is misordered and is its own argument.
   */
  lemma SelfArgument(p: string)
    requires |p| >= 2 && p[0] == '>' && p[|p| - 1] == '<'
    requires '<' !in p[..|p| - 1] && '>' !in p[1..]
    ensures Misordered(p) && GenericTypeNameParams(p) == p
    ensures DesugarArraySuffix(p) == p
  {
    IndexOfUnique(p, '<', |p| - 1);
    LastIndexOfUnique(p, '>', 0);
    assert p[|p| - 2..][1] == '<';
  }

  /** The argument the source extracts from a misordered name is such a name. */
  lemma MisorderedParams(d: string)
    requires Misordered(d)
    ensures GenericTypeNameParams(d) != ""
    ensures DesugarArraySuffix(GenericTypeNameParams(d)) == GenericTypeNameParams(d)
    ensures Misordered(GenericTypeNameParams(d))
    ensures GenericTypeNameParams(GenericTypeNameParams(d)) == GenericTypeNameParams(d)
  {
    MisorderedSlice(d);
    SelfArgument(GenericTypeNameParams(d));
  }

  /** The argument taken from a misordered name runs from a `>` to a `<` with neither in between. */
  lemma MisorderedSlice(d: string)
    requires Misordered(d)
    ensures var p := GenericTypeNameParams(d);
      |p| >= 2 && p[0] == '>' && p[|p| - 1] == '<' && '<' !in p[..|p| - 1] && '>' !in p[1..]
  {
    var openAt, closeAt := IndexOf(d, '<'), LastIndexOf(d, '>');
    assert GenericTypeNameParams(d) == d[closeAt..openAt + 1];
    BracketSlice(d, closeAt, openAt);
  }

  lemma BracketSlice(d: string, closeAt: int, openAt: int)
    requires 0 <= closeAt < openAt < |d| && d[closeAt] == '>' && d[openAt] == '<'
    requires '<' !in d[..openAt] && '>' !in d[closeAt + 1..]
    ensures var p := d[closeAt..openAt + 1];
      |p| >= 2 && p[0] == '>' && p[|p| - 1] == '<' && '<' !in p[..|p| - 1] && '>' !in p[1..]
  {
    var p := d[closeAt..openAt + 1];
    assert '<' !in p[..|p| - 1] by {
      assert p[..|p| - 1] == d[..openAt][closeAt..];
    }
    assert '>' !in p[1..] by {
      assert p[1..] == d[closeAt + 1..][..openAt - closeAt];
    }
  }

  /** The source's `mapTypeName`, when it returns within `fuel` levels, returns `MapTypeName`. */
  predicate AgreesWhenItReturns(typeName: string, fuel: nat) {
    MapTypeNameAsWritten(typeName, fuel).Some? ==>
      MapTypeNameAsWritten(typeName, fuel).value == MapTypeName(typeName)
  }

  /**
   * One level of agreement: on a name whose brackets are in order, both
   * definitions take the same argument and finish it the same way.
   */
  lemma AgreeStep(typeName: string, p: string, fuel: nat, f: nat)
    requires fuel == f + 1
    requires p == GenericTypeNameParams(DesugarArraySuffix(typeName))
    requires AgreesWhenItReturns(p, f)
    ensures AgreesWhenItReturns(typeName, fuel)
  {
    var d := DesugarArraySuffix(typeName);
    if Misordered(d) {
      MisorderedNeverTerminates(typeName, fuel);
    } else if p == "" {
      AgreeLeaf(typeName, fuel);
    } else {
      AgreeNode(typeName, p, fuel, f);
    }
  }

  /** Without a generic argument both definitions only normalise the literal names. */
  lemma AgreeLeaf(typeName: string, fuel: nat)
    requires fuel > 0
    requires !Misordered(DesugarArraySuffix(typeName))
    requires GenericTypeNameParams(DesugarArraySuffix(typeName)) == ""
    ensures AgreesWhenItReturns(typeName, fuel)
  {
    var d := DesugarArraySuffix(typeName);
    assert OrderedTypeNameParams(d) == "";
    assert MapTypeName(typeName) == NormalizeLiterals(d);
  }

  /** With a generic argument both definitions reassemble the same mapped argument. */
  lemma AgreeNode(typeName: string, p: string, fuel: nat, f: nat)
    requires fuel == f + 1
    requires !Misordered(DesugarArraySuffix(typeName))
    requires p == GenericTypeNameParams(DesugarArraySuffix(typeName)) != ""
    requires AgreesWhenItReturns(p, f)
    ensures AgreesWhenItReturns(typeName, fuel)
  {
    var d := DesugarArraySuffix(typeName);
    assert OrderedTypeNameParams(d) == p;
  }

  /**
   * Whenever the source's `mapTypeName` returns, it returns what
   * `MapTypeName` computes.
   */
  lemma {:induction false} AsWrittenAgreesWhenItReturns(typeName: string, fuel: nat)
    ensures AgreesWhenItReturns(typeName, fuel)
    decreases fuel
  {
    if fuel > 0 {
      var p := GenericTypeNameParams(DesugarArraySuffix(typeName));
      var f: nat := fuel - 1;
      AsWrittenAgreesWhenItReturns(p, f);
      AgreeStep(typeName, p, fuel, f);
    }
  }

  /** The smallest misordered name: the source loops, the model keeps it. */
  lemma MisorderedExample()
    ensures forall fuel: nat :: MapTypeNameAsWritten("><", fuel) == None
    ensures MapTypeName("><") == "><"
  {
    var s := "><";
    assert IndexOf(s, '<') == 1 by { assert s[1] == '<' && s[0] != '<'; }
    assert LastIndexOf(s, '>') == 0 by { assert s[0] == '>' && s[1] != '>'; }
    assert !EndsWith(s, "[]");
    forall fuel: nat ensures MapTypeNameAsWritten("><", fuel) == None {
      MisorderedNeverTerminates(s, fuel);
    }
    MissingCharNoMatch(s, "number[]", '[');
    MissingCharNoMatch(s, "ptr<", 'p');
    NormalizeIdentity(s);
  }

  /** A name none of the literal rewrites applies to is left as it is. */
  lemma NormalizeIdentity(typeName: string)
    requires typeName !in {"boolean", "true", "false", "number"}
    requires !IsFirstCharacterDigit(typeName)
    requires !(StartsWith(typeName, "\"") && EndsWith(typeName, "\""))
    requires !Contains(typeName, "number[]") && !Contains(typeName, "ptr<")
    ensures NormalizeLiterals(typeName) == typeName
  {
  }

  lemma MissingCharNoMatch(s: string, sub: string, c: char)
    requires c in sub && c !in s
    ensures !Contains(s, sub)
  {
  }

  /** `ptr<` cannot occur where the only `<` is not preceded by `ptr`. */
  lemma NoPtrSpelling(s: string, k: nat)
    requires k < |s| && forall j :: 0 <= j < |s| && s[j] == '<' ==> j == k
    requires k < 3 || s[k - 3..k] != "ptr"
    ensures !Contains(s, "ptr<")
  {
    forall i | 0 <= i <= |s| ensures !OccursAt(s, "ptr<", i) {
      if i + 4 <= |s| && s[i + 3] == '<' {
        assert s[i..i + 4][..3] == s[k - 3..k];
      }
    }
  }

  /** Letters, digits and `_`: the characters of a plain identifier. */
  predicate IsNameChar(c: char) {
    'a' <= c <= 'z' || 'A' <= c <= 'Z' || '0' <= c <= '9' || c == '_'
  }

  /** A bare type identifier such as `i32`, `number` or `Foo`. */
  predicate PlainName(typeName: string) {
    typeName != "" && !IsFirstCharacterDigit(typeName) &&
    forall i :: 0 <= i < |typeName| ==> IsNameChar(typeName[i])
  }

  /** An identifier holds none of the characters the rewrites look for. */
  lemma PlainNoBrackets(typeName: string)
    requires PlainName(typeName)
    ensures '<' !in typeName && '>' !in typeName && '[' !in typeName && '"' !in typeName
  {
  }

  /**
   * A bare identifier has no generic argument: the keyword names become
   * Go's `bool` and `i32`, and every other identifier is kept.
   */
  lemma PlainNameMapping(typeName: string)
    requires PlainName(typeName)
    ensures typeName in {"boolean", "true", "false"} ==> MapTypeName(typeName) == "bool"
    ensures typeName == "number" ==> MapTypeName(typeName) == "i32"
    ensures typeName !in {"boolean", "true", "false", "number"} ==> MapTypeName(typeName) == typeName
    ensures PlainName(MapTypeName(typeName))
  {
    PlainNoBrackets(typeName);
    assert !EndsWith(typeName, "[]") by {
      assert IsNameChar(typeName[|typeName| - 1]);
    }
    MapNonGeneric(typeName);
    NormalizePlain(typeName);
  }

  /** The literal rewrites on a bare identifier: only the keyword names change. */
  lemma NormalizePlain(typeName: string)
    requires PlainName(typeName)
    ensures typeName in {"boolean", "true", "false"} ==> NormalizeLiterals(typeName) == "bool"
    ensures typeName == "number" ==> NormalizeLiterals(typeName) == "i32"
    ensures typeName !in {"boolean", "true", "false", "number"} ==> NormalizeLiterals(typeName) == typeName
    ensures PlainName(NormalizeLiterals(typeName))
  {
    PlainNoBrackets(typeName);
    assert !StartsWith(typeName, "\"") by {
      assert typeName[..1][0] == typeName[0];
    }
    MissingCharNoMatch(typeName, "number[]", '[');
    MissingCharNoMatch(typeName, "ptr<", '<');
    KeywordResultsPlain();
  }

  lemma KeywordResultsPlain()
    ensures PlainName("bool") && PlainName("i32")
  {
  }

  /** The only `<` of `outer<arg>` is the one after `outer`. */
  lemma GenericOpenAt(outer: string, arg: string)
    requires '<' !in outer && '<' !in arg
    ensures IndexOf(outer + "<" + arg + ">", '<') == |outer|
    ensures forall j :: 0 <= j < |outer| + |arg| + 2 && (outer + "<" + arg + ">")[j] == '<' ==> j == |outer|
  {
    var s := outer + "<" + arg + ">";
    forall j | 0 <= j < |s| && s[j] == '<'
      ensures j == |outer|
    {
    }
    assert s[..|outer|] == outer;
    IndexOfUnique(s, '<', |outer|);
  }

  /** The last `>` of `outer<arg>` is its final character. */
  lemma GenericCloseAt(outer: string, arg: string)
    ensures LastIndexOf(outer + "<" + arg + ">", '>') == |outer| + |arg| + 1
  {
    var s := outer + "<" + arg + ">";
    assert s[|s| - 1] == '>' && s[|s|..] == [];
    LastIndexOfUnique(s, '>', |s| - 1);
  }

  /**
   * `outer<arg>` with no other `<` and no `>` inside `arg`: the brackets
   * enclose `arg`, and the outer name is what precedes the `<`.
   */
  lemma GenericShape(outer: string, arg: string)
    requires '<' !in outer && '<' !in arg
    ensures GenericTypeNameParams(outer + "<" + arg + ">") == arg
    ensures OrderedTypeNameParams(outer + "<" + arg + ">") == arg
    ensures (outer + "<" + arg + ">")[..IndexOf(outer + "<" + arg + ">", '<')] == outer
    ensures !EndsWith(outer + "<" + arg + ">", "[]")
  {
    var s := outer + "<" + arg + ">";
    GenericOpenAt(outer, arg);
    GenericCloseAt(outer, arg);
    assert s[|outer| + 1..|s| - 1] == arg;
    assert s[..|outer|] == outer;
    assert s[|s| - 2..][1] == '>';
  }

  /**
   * No literal rewrite applies to `outer<arg>` when `outer` is a plain
   * identifier not ending in `ptr` and `arg` has no brackets.
   */
  lemma NormalizeGeneric(outer: string, arg: string)
    requires PlainName(outer) && !EndsWith(outer, "ptr")
    requires '<' !in arg && '>' !in arg && '[' !in arg
    ensures NormalizeLiterals(outer + "<" + arg + ">") == outer + "<" + arg + ">"
  {
    var s := outer + "<" + arg + ">";
    GenericNoNumberArray(outer, arg);
    GenericNoPtrSpelling(outer, arg);
    assert s[0] == outer[0] && s[|outer|] == '<';
    NotKeyword(s);
    NormalizeIdentity(s);
  }

  lemma GenericNoNumberArray(outer: string, arg: string)
    requires PlainName(outer) && '[' !in arg
    ensures !Contains(outer + "<" + arg + ">", "number[]")
  {
    var s := outer + "<" + arg + ">";
    assert '[' !in outer;
    assert s == outer + ("<" + arg + ">");
    MissingCharNoMatch(s, "number[]", '[');
  }

  lemma GenericNoPtrSpelling(outer: string, arg: string)
    requires '<' !in outer && '<' !in arg && !EndsWith(outer, "ptr")
    ensures !Contains(outer + "<" + arg + ">", "ptr<")
  {
    var s := outer + "<" + arg + ">";
    GenericOpenAt(outer, arg);
    if |outer| >= 3 {
      assert s[|outer| - 3..|outer|] == outer[|outer| - 3..];
    }
    NoPtrSpelling(s, |outer|);
  }

  /** A name with a `<` in it is none of the keyword names. */
  lemma NotKeyword(s: string)
    requires '<' in s
    ensures s !in {"boolean", "true", "false", "number"}
  {
  }

  /**
   * A generic name over a plain identifier keeps its outer name and maps
   * its argument (lines 36-47); this holds for `Pointer` too, since a
   * plain identifier never maps to an array for lines 41-45 to unwrap.
   */
  lemma GenericOfPlain(outer: string, arg: string)
    requires PlainName(outer) && !EndsWith(outer, "ptr")
    requires PlainName(arg)
    ensures MapTypeName(outer + "<" + arg + ">") == outer + "<" + MapTypeName(arg) + ">"
  {
    PlainNoBrackets(outer);
    PlainNoBrackets(arg);
    PlainNameMapping(arg);
    var m := MapTypeName(arg);
    PlainNoBrackets(m);
    GenericUnfold(outer, arg);
    ReassembleOther(outer, arg, m);
    NormalizeGeneric(outer, m);
  }

  /** One unfolding of `MapTypeName` on `outer<arg>` with no other angle brackets. */
  lemma GenericUnfold(outer: string, arg: string)
    requires '<' !in outer && '<' !in arg && arg != ""
    ensures '<' in outer + "<" + arg + ">"
    ensures MapTypeName(outer + "<" + arg + ">") ==
      NormalizeLiterals(ReassembleGeneric(outer + "<" + arg + ">", MapTypeName(arg)))
  {
    var s := outer + "<" + arg + ">";
    GenericShape(outer, arg);
    MapGenericUnfold(s);
  }

  /**
   * Lines 39-47 when the outer name is not `Pointer` or the mapped argument
   * is no array: the mapped argument goes between the brackets.
   */
  lemma ReassembleOther(outer: string, arg: string, m: string)
    requires '<' !in outer && '<' !in arg && (outer != "Pointer" || '<' !in m)
    ensures '<' in outer + "<" + arg + ">"
    ensures ReassembleGeneric(outer + "<" + arg + ">", m) == outer + "<" + m + ">"
  {
    GenericShape(outer, arg);
    assert outer == "Pointer" ==> !IsArrayTypeName(m) by {
      if |m| >= 6 { assert m[..6][5] == m[5]; }
    }
  }

  /** `T[]` is `Array<T>`: the sugar and the explicit spelling map alike. */
  lemma ArraySugar(arg: string)
    ensures MapTypeName(arg + "[]") == MapTypeName("Array<" + arg + ">")
  {
    var s := arg + "[]";
    assert s[|s| - 2..] == "[]";
    assert s[..|s| - 2] == arg;
    var d := "Array<" + arg + ">";
    assert !EndsWith(d, "[]") by { assert d[|d| - 1] == '>'; }
  }

  /** An array of a plain element type maps to an array of the mapped element. */
  lemma ArrayOfPlain(arg: string)
    requires PlainName(arg)
    ensures MapTypeName(arg + "[]") == "Array<" + MapTypeName(arg) + ">"
    ensures MapTypeName("Array<" + arg + ">") == "Array<" + MapTypeName(arg) + ">"
  {
    ArraySugar(arg);
    WrapperOuterNames();
    GenericOfPlain("Array", arg);
  }

  /** One unfolding of `MapTypeName` on a name with a generic argument. */
  lemma MapGenericUnfold(typeName: string)
    requires !EndsWith(typeName, "[]") && OrderedTypeNameParams(typeName) != ""
    ensures '<' in typeName
    ensures MapTypeName(typeName) ==
      NormalizeLiterals(ReassembleGeneric(typeName, MapTypeName(OrderedTypeNameParams(typeName))))
  {
  }

  /** `Array` and `Pointer` are outer names `GenericOfPlain` and `NormalizeGeneric` speak about. */
  lemma WrapperOuterNames()
    ensures PlainName("Array") && !EndsWith("Array", "ptr")
    ensures PlainName("Pointer") && !EndsWith("Pointer", "ptr")
    ensures "Array" + "<" == "Array<" && "Pointer" + "<" == "Pointer<"
  {
    assert "Array"[2..][0] != 'p';
    assert "Pointer"[4..][0] != 'p';
  }

  /**
   * Lines 41-45: a `Pointer` whose mapped argument is an array takes the
   * element, whatever the argument was spelled as.
   */
  lemma ReassemblePointerOfArray(rest: string, m: string)
    ensures '<' in "Pointer" + "<" + rest + ">"
    ensures ReassembleGeneric("Pointer" + "<" + rest + ">", "Array<" + m + ">") == "Pointer" + "<" + m + ">"
  {
    var s := "Pointer" + "<" + rest + ">";
    assert s[..7] == "Pointer" && s[7] == '<';
    IndexOfUnique(s, '<', 7);
    ArrayParams(m);
    ArrayWrapperBuilt(m);
  }

  /**
   * Lines 41-45: a `Pointer` to an array of a plain element type points
   * at the mapped element itself.
   */
  lemma PointerOfArrayCollapses(arg: string)
    requires PlainName(arg)
    ensures MapTypeName("Pointer<" + arg + "[]>") == "Pointer<" + MapTypeName(arg) + ">"
  {
    var rest := arg + "[]";
    var s := "Pointer" + "<" + rest + ">";
    assert s == "Pointer<" + arg + "[]>";
    assert '<' !in arg;
    WrapperOuterNames();
    GenericShape("Pointer", rest);
    MapGenericUnfold(s);
    ArrayOfPlain(arg);
    var m := MapTypeName(arg);
    ReassemblePointerOfArray(rest, m);
    PlainNameMapping(arg);
    PlainNoBrackets(m);
    NormalizeGeneric("Pointer", m);
  }

  /** A name with no angle brackets and no `[]` sugar is left to the literal rewrites. */
  lemma MapNonGeneric(typeName: string)
    requires '<' !in typeName && !EndsWith(typeName, "[]")
    ensures MapTypeName(typeName) == NormalizeLiterals(typeName)
  {
  }

  /** Lines 50-52: a quoted literal type is a Go `string`. */
  lemma QuotedNameIsString(typeName: string)
    requires |typeName| >= 1 && typeName[0] == '"' && typeName[|typeName| - 1] == '"'
    requires '<' !in typeName
    ensures MapTypeName(typeName) == "string"
  {
    assert !EndsWith(typeName, "[]") by { assert typeName[|typeName| - 1] != ']'; }
    MapNonGeneric(typeName);
    QuotedNormalize(typeName);
  }

  lemma QuotedNormalize(typeName: string)
    requires |typeName| >= 1 && typeName[0] == '"' && typeName[|typeName| - 1] == '"'
    ensures NormalizeLiterals(typeName) == "string"
  {
    assert StartsWith(typeName, "\"") by {
      assert typeName[..1] == [typeName[0]];
    }
    assert EndsWith(typeName, "\"") by {
      assert typeName[|typeName| - 1..] == [typeName[|typeName| - 1]];
    }
    var t := "string";
    assert PlainName(t);
    PlainNoBrackets(t);
    MissingCharNoMatch(t, "number[]", '[');
    MissingCharNoMatch(t, "ptr<", '<');
  }

  /**
   * Lines 54-60: a numeric literal type is `f64` when it has a decimal
   * point and `i32` otherwise.
   */
  lemma NumericLiteralName(typeName: string)
    requires IsFirstCharacterDigit(typeName)
    requires '<' !in typeName && !EndsWith(typeName, "[]")
    ensures '.' in typeName ==> MapTypeName(typeName) == "f64"
    ensures '.' !in typeName ==> MapTypeName(typeName) == "i32"
  {
    MapNonGeneric(typeName);
    NormalizeNumeric(typeName);
  }

  /**
   * A generic name over a numeric literal keeps its outer name and maps its
   * argument, as `GenericOfPlain` does for identifiers (lines 36-47).
   */
  lemma GenericOfDigitName(outer: string, arg: string)
    requires PlainName(outer) && !EndsWith(outer, "ptr")
    requires IsFirstCharacterDigit(arg) && '<' !in arg && !EndsWith(arg, "[]")
    ensures MapTypeName(outer + "<" + arg + ">") == outer + "<" + MapTypeName(arg) + ">"
  {
    NumericLiteralName(arg);
    var m := MapTypeName(arg);
    NumericTypeNames(m);
    GenericOverMapped(outer, arg, m);
  }

  /** The two names a numeric literal maps to hold no bracket and no `.`. */
  lemma NumericTypeNames(m: string)
    requires m == "i32" || m == "f64"
    ensures '<' !in m && '>' !in m && '[' !in m && '.' !in m
  {
  }

  /** `outer<arg>` when the argument is known to map to a bracket-free `m`. */
  lemma GenericOverMapped(outer: string, arg: string, m: string)
    requires PlainName(outer) && !EndsWith(outer, "ptr")
    requires '<' !in arg && arg != ""
    requires MapTypeName(arg) == m && '<' !in m && '>' !in m && '[' !in m
    ensures MapTypeName(outer + "<" + arg + ">") == outer + "<" + m + ">"
  {
    PlainNoBrackets(outer);
    GenericUnfold(outer, arg);
    ReassembleOther(outer, arg, m);
    NormalizeGeneric(outer, m);
  }

  /**
   * Outside the restriction of `NumericLiteralName` the array sugar runs
   * first (lines 30-33): `1[]` maps to `Array<i32>`, not to a number.
   */
  lemma DigitNameArray(arg: string)
    requires IsFirstCharacterDigit(arg) && '<' !in arg && !EndsWith(arg, "[]")
    ensures MapTypeName(arg + "[]") == "Array<" + MapTypeName(arg) + ">"
  {
    ArraySugar(arg);
    WrapperOuterNames();
    GenericOfDigitName("Array", arg);
  }

  /**
   * A digit-initial generic name runs the generic rewrite (lines 35-47)
   * before the digit test (lines 54-60): the test then sees the mapped
   * argument, so a `.` in a numeric argument is lost and `1<2.5>` maps to
   * `i32`, as does every such name whose outer name has no `.`.
   */
  lemma DigitOuterName(outer: string, arg: string)
    requires IsFirstCharacterDigit(outer) && '<' !in outer && '.' !in outer
    requires IsFirstCharacterDigit(arg) && '<' !in arg && !EndsWith(arg, "[]")
    ensures MapTypeName(outer + "<" + arg + ">") == "i32"
  {
    NumericLiteralName(arg);
    var m := MapTypeName(arg);
    NumericTypeNames(m);
    DigitOuterOverMapped(outer, arg, m);
  }

  /** A digit-initial `outer<arg>` whose argument maps to an `m` without `.`. */
  lemma DigitOuterOverMapped(outer: string, arg: string, m: string)
    requires IsFirstCharacterDigit(outer) && '<' !in outer && '.' !in outer
    requires '<' !in arg && arg != ""
    requires MapTypeName(arg) == m && '.' !in m
    ensures MapTypeName(outer + "<" + arg + ">") == "i32"
  {
    GenericUnfold(outer, arg);
    assert outer != "Pointer" by { assert outer[0] != "Pointer"[0]; }
    ReassembleOther(outer, arg, m);
    NormalizeDigitGeneric(outer, m);
  }

  lemma NormalizeDigitGeneric(outer: string, m: string)
    requires IsFirstCharacterDigit(outer) && '.' !in outer && '.' !in m
    ensures NormalizeLiterals(outer + "<" + m + ">") == "i32"
  {
    var r := outer + "<" + m + ">";
    assert r[0] == outer[0];
    assert '.' !in r;
    NormalizeNumeric(r);
  }

  lemma NormalizeNumeric(typeName: string)
    requires IsFirstCharacterDigit(typeName)
    ensures '.' in typeName ==> NormalizeLiterals(typeName) == "f64"
    ensures '.' !in typeName ==> NormalizeLiterals(typeName) == "i32"
  {
    assert !StartsWith(typeName, "\"") by {
      assert typeName[..1][0] == typeName[0];
    }
    var t := if '.' in typeName then "f64" else "i32";
    assert PlainName(t);
    PlainNoBrackets(t);
    MissingCharNoMatch(t, "number[]", '[');
    MissingCharNoMatch(t, "ptr<", '<');
  }

  /** Lines 68-70: the rewrite replaces a leading `ptr<` and nothing after it. */
  lemma ReplacePtrPrefix(m: string)
    requires !Contains(m + ">", "ptr<")
    ensures ReplaceAll("ptr<" + m + ">", "ptr<", "Pointer<") == "Pointer<" + m + ">"
  {
    var s := "ptr<" + m + ">";
    assert s[..4] == "ptr<";
    assert s[4..] == m + ">";
  }

  /**
   * Lines 68-70: `ptr<T>` is the spelling of `Pointer<T>`; the rewrite
   * runs after the argument is mapped.
   */
  lemma PtrSpelling(arg: string)
    requires PlainName(arg)
    ensures MapTypeName("ptr<" + arg + ">") == "Pointer<" + MapTypeName(arg) + ">"
  {
    var s := "ptr" + "<" + arg + ">";
    assert s == "ptr<" + arg + ">";
    PlainNoBrackets(arg);
    GenericShape("ptr", arg);
    MapGenericUnfold(s);
    var m := MapTypeName(arg);
    PlainNameMapping(arg);
    PlainNoBrackets(m);
    PtrReassemble(arg, m);
    MissingCharNoMatch(m + ">", "ptr<", '<');
    PtrNormalize(m);
  }

  lemma PtrReassemble(arg: string, m: string)
    requires '<' !in arg
    ensures ReassembleGeneric("ptr" + "<" + arg + ">", m) == "ptr<" + m + ">"
  {
    GenericOpenAt("ptr", arg);
    assert ("ptr" + "<" + arg + ">")[..3] == "ptr";
    assert "ptr" + "<" + m + ">" == "ptr<" + m + ">";
  }

  lemma PtrNormalize(m: string)
    requires '[' !in m && !Contains(m + ">", "ptr<")
    ensures NormalizeLiterals("ptr<" + m + ">") == "Pointer<" + m + ">"
  {
    var s := "ptr<" + m + ">";
    assert s[0] == 'p';
    assert !StartsWith(s, "\"");
    assert '[' !in s by { assert s == "ptr<" + (m + ">"); }
    MissingCharNoMatch(s, "number[]", '[');
    assert OccursAt(s, "ptr<", 0);
    ReplacePtrPrefix(m);
    var r := "Pointer<" + m + ">";
    assert r[7] == '<';
    NotKeyword(r);
  }

  /**
   * Mapping a bare identifier, or an array of one, a second time changes
   * nothing.
   */
  lemma MapTypeNameIdempotentOnPlain(arg: string)
    requires PlainName(arg)
    ensures MapTypeName(MapTypeName(arg)) == MapTypeName(arg)
    ensures MapTypeName(MapTypeName(arg + "[]")) == MapTypeName(arg + "[]")
  {
    PlainNameMapping(arg);
    var m := MapTypeName(arg);
    PlainNameMapping(m);
    assert m !in {"boolean", "true", "false", "number"};
    ArrayOfPlain(arg);
    ArrayOfPlain(m);
  }

  /**
   * Lines 43 and 68-70: the `ptr<` spelling is rewritten only after the
   * `Pointer` check, so an array argument keeps its `Array` wrapper.
   */
  lemma PtrOfArrayNotCollapsed(arg: string)
    requires PlainName(arg)
    ensures MapTypeName("ptr<" + arg + "[]>") == "Pointer<Array<" + MapTypeName(arg) + ">>"
  {
    var rest := arg + "[]";
    var s := "ptr" + "<" + rest + ">";
    assert s == "ptr<" + arg + "[]>";
    PlainNoBrackets(arg);
    assert '<' !in rest;
    GenericShape("ptr", rest);
    MapGenericUnfold(s);
    ArrayOfPlain(arg);
    var m := MapTypeName(arg);
    PlainNameMapping(arg);
    PlainNoBrackets(m);
    var a := "Array<" + m + ">";
    PtrReassemble(rest, a);
    ArrayInsidePtr(m);
    PtrNormalize(a);
  }

  lemma ArrayInsidePtr(m: string)
    requires '<' !in m && '[' !in m
    ensures !Contains("Array<" + m + ">" + ">", "ptr<")
    ensures '[' !in "Array<" + m + ">"
    ensures "Pointer<" + ("Array<" + m + ">") + ">" == "Pointer<Array<" + m + ">>"
  {
    assert "Array<" + m + ">" == "Array<" + (m + ">");
    var t := "Array<" + m + ">" + ">";
    assert t[..5] == "Array" && t[5] == '<';
    assert t[6..] == m + ">>";
    assert t[2..5] == "ray";
    NoPtrSpelling(t, 5);
  }

  /** The first `<` of `Pointer<rest>` follows `Pointer`, and the argument is everything up to the final `>`. */
  lemma PointerParams(rest: string)
    ensures IndexOf("Pointer" + "<" + rest + ">", '<') == 7
    ensures OrderedTypeNameParams("Pointer" + "<" + rest + ">") == rest
    ensures !EndsWith("Pointer" + "<" + rest + ">", "[]")
  {
    var s := "Pointer" + "<" + rest + ">";
    assert s[..7] == "Pointer" && s[7] == '<';
    IndexOfUnique(s, '<', 7);
    GenericCloseAt("Pointer", rest);
    assert s[8..|s| - 1] == rest;
    assert s[|s| - 2..][1] == '>';
  }

  /**
   * Lines 36-45 on the explicit spelling: `Pointer<Array<T>>` for a mapped
   * plain `T` collapses to `Pointer<T>`, as `Pointer<T[]>` does.
   */
  lemma PointerOfExplicitArrayCollapses(arg: string)
    requires PlainName(arg)
    ensures MapTypeName("Pointer<Array<" + MapTypeName(arg) + ">>") == "Pointer<" + MapTypeName(arg) + ">"
  {
    PlainNameMapping(arg);
    MapTypeNameIdempotentOnPlain(arg);
    var m := MapTypeName(arg);
    PlainNoBrackets(m);
    var a := "Array<" + m + ">";
    ArrayInsidePtr(m);
    WrapperOuterNames();
    var s := "Pointer" + "<" + a + ">";
    assert s == "Pointer<Array<" + m + ">>";
    PointerParams(a);
    MapGenericUnfold(s);
    ArrayOfPlain(m);
    ReassemblePointerOfArray(a, m);
    NormalizeGeneric("Pointer", m);
  }

  /**
   * Lines 41-45 and 68-70 together: the first pass keeps the array inside
   * `ptr<T[]>`, because the `Pointer` check runs before `ptr<` is
   * respelled; a second pass then sees `Pointer<Array<T>>` and collapses
   * it. So mapping is not idempotent on `ptr<T[]>`.
   */
  lemma PtrOfArrayRemapChanges(arg: string)
    requires PlainName(arg)
    ensures MapTypeName(MapTypeName("ptr<" + arg + "[]>")) == "Pointer<" + MapTypeName(arg) + ">"
    ensures MapTypeName(MapTypeName("ptr<" + arg + "[]>")) != MapTypeName("ptr<" + arg + "[]>")
  {
    PtrOfArrayNotCollapsed(arg);
    PointerOfExplicitArrayCollapses(arg);
    var m := MapTypeName(arg);
    assert |"Pointer<" + m + ">"| != |"Pointer<Array<" + m + ">>"|;
  }

  /**
   * The mapping with the `ptr<` spelling respelled before the generic step
   * rather than after it, so that `ptr<T[]>` is treated as `Pointer<T[]>`.
   */
  function MapTypeNamePointerFirst(typeName: string): string
  {
    MapTypeName(if Contains(typeName, "ptr<") then ReplaceAll(typeName, "ptr<", "Pointer<") else typeName)
  }

  /** `ptr<T[]>` is respelled as `Pointer<T[]>` before anything else. */
  lemma RespellPtrOfArray(arg: string)
    requires PlainName(arg)
    ensures Contains("ptr<" + arg + "[]>", "ptr<")
    ensures ReplaceAll("ptr<" + arg + "[]>", "ptr<", "Pointer<") == "Pointer<" + arg + "[]>"
  {
    var s := "ptr<" + arg + "[]>";
    assert s[..4] == "ptr<";
    assert OccursAt(s, "ptr<", 0);
    PlainNoBrackets(arg);
    var rest := arg + "[]";
    assert s == "ptr<" + rest + ">";
    assert '<' !in rest + ">";
    MissingCharNoMatch(rest + ">", "ptr<", '<');
    ReplacePtrPrefix(rest);
    assert "Pointer<" + rest + ">" == "Pointer<" + arg + "[]>";
  }

  /**
   * With `ptr<` respelled first, `ptr<T[]>` collapses exactly as
   * `Pointer<T[]>` does.
   */
  lemma PointerFirstOnPtrArray(arg: string)
    requires PlainName(arg)
    ensures MapTypeNamePointerFirst("ptr<" + arg + "[]>") == MapTypeName("Pointer<" + arg + "[]>")
    ensures MapTypeNamePointerFirst("ptr<" + arg + "[]>") == "Pointer<" + MapTypeName(arg) + ">"
  {
    RespellPtrOfArray(arg);
    PointerOfArrayCollapses(arg);
  }

  /** With `ptr<` respelled first, mapping the result for `ptr<T[]>` again changes nothing. */
  lemma PointerFirstIdempotentOnPtrArray(arg: string)
    requires PlainName(arg)
    ensures MapTypeNamePointerFirst(MapTypeNamePointerFirst("ptr<" + arg + "[]>")) ==
      MapTypeNamePointerFirst("ptr<" + arg + "[]>")
  {
    PointerFirstOnPtrArray(arg);
    PlainNameMapping(arg);
    WrapperOuterNames();
    PointerFirstOnGenericOfPlain("Pointer", MapTypeName(arg));
    MapTypeNameIdempotentOnPlain(arg);
  }

  /**
   * The corrected mapping treats a generic name over a bare identifier,
   * `Pointer<T>` included, as the source does.
   */
  lemma PointerFirstOnGenericOfPlain(outer: string, arg: string)
    requires PlainName(outer) && !EndsWith(outer, "ptr")
    requires PlainName(arg)
    ensures MapTypeNamePointerFirst(outer + "<" + arg + ">") == outer + "<" + MapTypeName(arg) + ">"
  {
    PlainNoBrackets(outer);
    PlainNoBrackets(arg);
    GenericNoPtrSpelling(outer, arg);
    PointerFirstWithoutPtr(outer + "<" + arg + ">");
    GenericOfPlain(outer, arg);
  }

  /** A name without the `ptr<` spelling is mapped by the corrected mapping as by the source's. */
  lemma PointerFirstWithoutPtr(typeName: string)
    requires '<' !in typeName || !Contains(typeName, "ptr<")
    ensures MapTypeNamePointerFirst(typeName) == MapTypeName(typeName)
  {
    if '<' !in typeName {
      MissingCharNoMatch(typeName, "ptr<", '<');
    }
  }

  /**
   * The respelling changes nothing for a bare identifier or an array of
   * one, so there the corrected mapping is the source's.
   */
  lemma PointerFirstAgreesOnPlain(arg: string)
    requires PlainName(arg)
    ensures MapTypeNamePointerFirst(arg) == MapTypeName(arg)
    ensures MapTypeNamePointerFirst(arg + "[]") == MapTypeName(arg + "[]")
  {
    PlainNoBrackets(arg);
    PointerFirstWithoutPtr(arg);
    assert '<' !in arg + "[]";
    PointerFirstWithoutPtr(arg + "[]");
  }

  /** The corrected mapping is idempotent on bare identifiers and arrays of them. */
  lemma PointerFirstIdempotentOnPlain(arg: string)
    requires PlainName(arg)
    ensures MapTypeNamePointerFirst(MapTypeNamePointerFirst(arg)) == MapTypeNamePointerFirst(arg)
    ensures MapTypeNamePointerFirst(MapTypeNamePointerFirst(arg + "[]")) == MapTypeNamePointerFirst(arg + "[]")
  {
    PointerFirstAgreesOnPlain(arg);
    PlainNameMapping(arg);
    MapTypeNameIdempotentOnPlain(arg);
    var m := MapTypeName(arg);
    PointerFirstAgreesOnPlain(m);
    ArrayOfPlain(arg);
    WrapperOuterNames();
    PointerFirstOnGenericOfPlain("Array", m);
  }

  /** The mappings the translator relies on for its sample programs. */
  lemma TypeNameExamples()
    ensures MapTypeName("number") == "i32"
    ensures MapTypeName("boolean") == "bool"
    ensures MapTypeName("number[]") == "Array<i32>"
    ensures MapTypeName("Pointer<i32[]>") == "Pointer<i32>"
    ensures MapTypeName("ptr<i32[]>") == "Pointer<Array<i32>>"
    ensures MapTypeName("Pointer<Array<i32>>") == "Pointer<i32>"
  {
    assert PlainName("number") && PlainName("boolean") && PlainName("i32");
    assert "number" + "[]" == "number[]" && "Array<" + "i32" + ">" == "Array<i32>";
    assert "Pointer<" + "i32" + "[]>" == "Pointer<i32[]>" && "Pointer<" + "i32" + ">" == "Pointer<i32>";
    assert "ptr<" + "i32" + "[]>" == "ptr<i32[]>" && "Pointer<Array<" + "i32" + ">>" == "Pointer<Array<i32>>";
    PlainNameMapping("number");
    PlainNameMapping("boolean");
    PlainNameMapping("i32");
    assert MapTypeName("number[]") == "Array<i32>" by {
      ArrayOfPlain("number");
    }
    assert MapTypeName("Pointer<i32[]>") == "Pointer<i32>" by {
      PointerOfArrayCollapses("i32");
    }
    assert MapTypeName("ptr<i32[]>") == "Pointer<Array<i32>>" by {
      PtrOfArrayNotCollapsed("i32");
    }
    assert MapTypeName("Pointer<Array<i32>>") == "Pointer<i32>" by {
      PointerOfExplicitArrayCollapses("i32");
    }
  }
}
