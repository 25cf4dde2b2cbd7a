/**
 * `EmitContext`: the state shared by the emit functions, namely the file
 * being emitted and a stack of output builders whose base builder can
 * never be popped, plus the test for Go numeric type names.
 */
module EmitContexts {
  import opened Wrappers
  import opened Stacks
  import opened StringBuilders
  import opened JsStrings
  import TypeUtils

  class EmitContext {
    /** The source file being emitted (`sourceFile`), by name. */
    const sourceFile: string
    const outputStack: Stack<StringBuilder>

    /** The base builder is the floor of the output stack. */
    predicate Valid()
      reads this, outputStack
    {
      outputStack.Valid() && outputStack.initialLength == 1
    }

    /** Lines 15 and 24-27: the entry file and one fresh base builder. */
    constructor(sourceFile: string)
      ensures Valid() && this.sourceFile == sourceFile && fresh(outputStack)
      ensures |outputStack.data| == 1 && fresh(outputStack.data[0])
      ensures outputStack.data[0].Valid() && fresh(outputStack.data[0].Repr)
      ensures outputStack.data[0].State() == Fresh
    {
      this.sourceFile := sourceFile;
      var base := new StringBuilder();
      outputStack := new Stack<StringBuilder>([base]);
    }

    /** The builder emit functions currently write to. */
    function Output(): StringBuilder
      requires Valid()
      reads this, outputStack
    {
      outputStack.data[|outputStack.data| - 1]
    }

    /** Lines 29-31: the `output` getter never fails, because the base builder stays. */
    method GetOutput() returns (r: StringBuilder)
      requires Valid()
      ensures r == Output()
    {
      var top := outputStack.Top();
      r := top.value;
    }

    /** Lines 33-35: later output goes to `output` until it is popped. */
    method PushOutput(output: StringBuilder)
      modifies outputStack
      requires Valid()
      ensures Valid() && Output() == output
      ensures outputStack.data == old(outputStack.data) + [output]
    {
      outputStack.Push(output);
    }

    /** Lines 37-39: popping the base builder is the stack's floor error. */
    method PopOutput() returns (r: Outcome<string>)
      modifies outputStack
      requires Valid()
      ensures Valid()
      ensures r.Fail? <==> |old(outputStack.data)| == 1
      ensures r.Fail? ==> r.error == "Stack is empty." && outputStack.data == old(outputStack.data)
      ensures r.Pass? ==> outputStack.data == old(outputStack.data)[..|old(outputStack.data)| - 1]
    {
      var popped := outputStack.Pop();
      r := if popped.Success? then Pass else Fail(popped.error);
    }
  }

  /** Pushing a builder and popping it again gives the previous output back. */
  method RedirectOutput(context: EmitContext, output: StringBuilder) returns (r: Outcome<string>)
    modifies context.outputStack
    requires context.Valid()
    ensures context.Valid() && r == Pass
    ensures context.outputStack.data == old(context.outputStack.data)
    ensures context.Output() == old(context.Output())
  {
    context.PushOutput(output);
    r := context.PopOutput();
  }

  /** Lines 140-153: the ten Go numeric type names. */
  predicate IsNumberTypeName(typeName: string) {
    typeName == "f32" || typeName == "f64" ||
    typeName == "i8" || typeName == "i16" || typeName == "i32" || typeName == "i64" ||
    typeName == "u8" || typeName == "u16" || typeName == "u32" || typeName == "u64"
  }

  /** The bit widths Go gives its numeric types. */
  predicate IsWidth(w: string, floats: bool) {
    w == "32" || w == "64" || (!floats && (w == "8" || w == "16"))
  }

  /**
   * The numeric type names are exactly a kind letter followed by a width:
   * signed and unsigned integers of 8 to 64 bits and floats of 32 or 64.
   */
  lemma NumberTypeNameShape(typeName: string)
    ensures IsNumberTypeName(typeName) <==>
      |typeName| >= 2 &&
      (typeName[0] == 'i' || typeName[0] == 'u' || typeName[0] == 'f') &&
      IsWidth(typeName[1..], typeName[0] == 'f')
  {
    if |typeName| >= 2 && (typeName[0] == 'i' || typeName[0] == 'u' || typeName[0] == 'f') &&
      IsWidth(typeName[1..], typeName[0] == 'f')
    {
      assert typeName == [typeName[0]] + typeName[1..];
    }
  }

  /**
   * What the type-name mapping makes of `number` and of numeric literal
   * names is a numeric type, so such values are wrapped in a conversion.
   */
  lemma MappedNumbersAreNumeric(typeName: string)
    requires typeName == "number" ||
      (TypeUtils.IsFirstCharacterDigit(typeName) && '<' !in typeName && typeName[|typeName| - 1] != ']')
    ensures IsNumberTypeName(TypeUtils.MapTypeName(typeName))
  {
    if typeName == "number" {
      TypeUtils.TypeNameExamples();
    } else {
      assert !EndsWith(typeName, "[]");
      TypeUtils.NumericLiteralName(typeName);
    }
  }

  /** String literal types are not numeric, so they are not converted. */
  lemma MappedNonNumbers(typeName: string)
    requires |typeName| >= 2 && typeName[0] == '"' && typeName[|typeName| - 1] == '"' && '<' !in typeName
    ensures !IsNumberTypeName(TypeUtils.MapTypeName(typeName))
  {
    TypeUtils.QuotedNameIsString(typeName);
  }

  /** Booleans are not numeric either. */
  lemma BooleanNotNumeric()
    ensures !IsNumberTypeName(TypeUtils.MapTypeName("boolean"))
  {
    TypeUtils.TypeNameExamples();
  }
}
