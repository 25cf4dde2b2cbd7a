/**
 * Small string and table utilities of the translator: the exported-name
 * rule (`firstLetterToUpper`) and the reverse map from the values of a
 * numeric enumeration to the name of their first member
 * (`createEnumToStringMapFunction`).
 */
module Utils {
  import opened Wrappers

  predicate IsAsciiLower(c: char) { 'a' <= c <= 'z' }

  /** `toUpperCase` of one character, restricted to ASCII letters. */
  function ToUpperAscii(c: char): (r: char)
    ensures !IsAsciiLower(r)
    ensures !IsAsciiLower(c) ==> r == c
  {
    if IsAsciiLower(c) then (c as int - 32) as char else c
  }

  /**
   * The first character upper-cased, followed by the unchanged rest; the
   * empty string is returned as it is.
   */
  function FirstLetterToUpper(input: string): (r: string)
    ensures |r| == |input|
    ensures input == "" ==> r == ""
    ensures input != "" ==> r[0] == ToUpperAscii(input[0]) && r[1..] == input[1..]
  {
    if |input| <= 0 then input
    else [ToUpperAscii(input[0])] + input[1..]
  }

  /** Applying the rule twice changes nothing more than applying it once. */
  lemma {:induction false} FirstLetterToUpperIdempotent(input: string)
    ensures FirstLetterToUpper(FirstLetterToUpper(input)) == FirstLetterToUpper(input)
  {
    if input != "" {
      var once := FirstLetterToUpper(input);
      assert once[0] == ToUpperAscii(input[0]);
      assert ToUpperAscii(once[0]) == once[0];
      assert once == [once[0]] + once[1..];
    }
  }

  /**
   * The value of one member of a compiled enumeration object: numeric
   * members hold numbers, and the reverse entries the compiler adds hold
   * member names.
   */
  datatype EnumValue = Number(n: int) | Text(s: string)

  /** One `for ... in` step: a member name and its value, in iteration order. */
  type EnumMember = (string, EnumValue)

  /**
   * The table built by the loop after its first `k` members: a number is
   * recorded with the name of the first member holding it.
   */
  function ReverseMapUpTo(enumeration: seq<EnumMember>, k: nat): map<int, string>
    requires k <= |enumeration|
  {
    if k == 0 then map[]
    else
      var m := ReverseMapUpTo(enumeration, k - 1);
      var (name, id) := enumeration[k - 1];
      if id.Number? && id.n !in m then m[id.n := name] else m
  }

  /** The first member holding the number `v`, by position. */
  predicate IsFirstHolder(enumeration: seq<EnumMember>, v: int, i: int)
  {
    0 <= i < |enumeration| && enumeration[i].1 == Number(v) &&
    forall j :: 0 <= j < i ==> enumeration[j].1 != Number(v)
  }

  /**
   * Exactly the numbers held by some member are recorded, each with the
   * name of the first member (in iteration order) that holds it.
   */
  lemma {:induction false} ReverseMapFirstWins(enumeration: seq<EnumMember>, k: nat, v: int)
    requires k <= |enumeration|
    ensures v in ReverseMapUpTo(enumeration, k) <==>
      exists i :: 0 <= i < k && enumeration[i].1 == Number(v)
    ensures v in ReverseMapUpTo(enumeration, k) ==>
      exists i :: 0 <= i < k && IsFirstHolder(enumeration, v, i) && ReverseMapUpTo(enumeration, k)[v] == enumeration[i].0
  {
    if k > 0 {
      ReverseMapFirstWins(enumeration, k - 1, v);
      var m := ReverseMapUpTo(enumeration, k - 1);
      if enumeration[k - 1].1 == Number(v) && v !in m {
        assert IsFirstHolder(enumeration, v, k - 1);
      }
    }
  }

  /**
   * `createEnumToStringMapFunction`: the `for ... in` loop that fills the
   * table, skipping members whose value is not a number and numbers that
   * are already recorded.
   */
  method CreateEnumToStringMap(enumeration: seq<EnumMember>) returns (m: map<int, string>)
    ensures m == ReverseMapUpTo(enumeration, |enumeration|)
  {
    m := map[];
    for k := 0 to |enumeration|
      invariant m == ReverseMapUpTo(enumeration, k)
    {
      var (name, id) := enumeration[k];
      if id.Number? && id.n !in m {
        m := m[id.n := name];
      }
    }
  }

  /** The function returned by `createEnumToStringMapFunction`. */
  function NameOf(m: map<int, string>, value: int): (r: string)
  {
    if value in m then m[value] else ""
  }

  /**
   * Looking a number up gives the first member's name when some member
   * holds it, and the empty string otherwise.
   */
  lemma NameOfReverseMap(enumeration: seq<EnumMember>, value: int)
    ensures (forall i :: 0 <= i < |enumeration| ==> enumeration[i].1 != Number(value)) ==>
      NameOf(ReverseMapUpTo(enumeration, |enumeration|), value) == ""
    ensures forall i :: IsFirstHolder(enumeration, value, i) ==>
      NameOf(ReverseMapUpTo(enumeration, |enumeration|), value) == enumeration[i].0
  {
    ReverseMapFirstWins(enumeration, |enumeration|, value);
    forall i | IsFirstHolder(enumeration, value, i)
      ensures NameOf(ReverseMapUpTo(enumeration, |enumeration|), value) == enumeration[i].0
    {
      var i' :| 0 <= i' < |enumeration| && IsFirstHolder(enumeration, value, i') &&
        ReverseMapUpTo(enumeration, |enumeration|)[value] == enumeration[i'].0;
      assert i == i';
    }
  }
}
