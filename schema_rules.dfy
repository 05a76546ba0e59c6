/** The small schema rules applied to extracted attribute values. */
module SchemaRules {
  import opened Wrappers
  import opened Text
  import opened Errors

  /** `notempty(s)`: the value unchanged, or ValueError when it is empty. */
  function NotEmpty(s: string): (r: Result<string, Failure>)
    ensures r.Success? <==> |s| > 0
    ensures r.Success? ==> r.value == s
    ensures r.Failure? ==> r.error == RuleViolation("Value was empty in nonempty() schema rule")
  {
    if |s| == 0 then Failure(RuleViolation("Value was empty in nonempty() schema rule")) else Success(s)
  }

  /** `notequal(s, v)`: the value unchanged, or ValueError naming the
      prohibited value when the two are equal. */
  function NotEqual(s: string, v: string): (r: Result<string, Failure>)
    ensures r.Success? <==> s != v
    ensures r.Success? ==> r.value == s
    ensures r.Failure? ==> r.error == RuleViolation("notequal() - Value was prohibited: " + v)
  {
    if s == v then Failure(RuleViolation("notequal() - Value was prohibited: " + v)) else Success(s)
  }

  /** `const(s)`: the literal value itself. */
  function Const<T>(s: T): (r: T)
    ensures r == s
  {
    s
  }

  /** `s.lower()` on ASCII text. */
  function Lower(s: string): (r: string)
    ensures |r| == |s|
    ensures forall k :: 0 <= k < |r| ==> !IsUpper(r[k])
  {
    if s == [] then [] else [LowerChar(s[0])] + Lower(s[1..])
  }

  /** `s.upper()` on ASCII text. */
  function Upper(s: string): (r: string)
    ensures |r| == |s|
    ensures forall k :: 0 <= k < |r| ==> !IsLower(r[k])
  {
    if s == [] then [] else [UpperChar(s[0])] + Upper(s[1..])
  }

  /** Lower-casing changes letters only, each into its own lower-case form. */
  lemma {:induction false} LowerAt(s: string, k: nat)
    requires k < |s|
    ensures Lower(s)[k] == LowerChar(s[k])
    ensures !IsLetter(s[k]) ==> Lower(s)[k] == s[k]
    ensures IsUpper(s[k]) ==> UpperChar(Lower(s)[k]) == s[k]
  {
    if k > 0 {
      LowerAt(s[1..], k - 1);
    }
  }

  /** Upper-casing changes letters only, each into its own upper-case form. */
  lemma {:induction false} UpperAt(s: string, k: nat)
    requires k < |s|
    ensures Upper(s)[k] == UpperChar(s[k])
    ensures !IsLetter(s[k]) ==> Upper(s)[k] == s[k]
    ensures IsLower(s[k]) ==> LowerChar(Upper(s)[k]) == s[k]
  {
    if k > 0 {
      UpperAt(s[1..], k - 1);
    }
  }

  /** Lower-casing twice is lower-casing once. */
  lemma {:induction false} LowerIdempotent(s: string)
    ensures Lower(Lower(s)) == Lower(s)
  {
    if s != [] {
      LowerIdempotent(s[1..]);
      assert Lower(s)[1..] == Lower(s[1..]);
    }
  }

  /** Upper-casing twice is upper-casing once. */
  lemma {:induction false} UpperIdempotent(s: string)
    ensures Upper(Upper(s)) == Upper(s)
  {
    if s != [] {
      UpperIdempotent(s[1..]);
      assert Upper(s)[1..] == Upper(s[1..]);
    }
  }

  /** Case is forgotten: lower-casing after upper-casing is lower-casing,
      and the other way round. */
  lemma {:induction false} CaseForgotten(s: string)
    ensures Lower(Upper(s)) == Lower(s)
    ensures Upper(Lower(s)) == Upper(s)
  {
    if s != [] {
      CaseForgotten(s[1..]);
      assert Upper(s)[1..] == Upper(s[1..]);
      assert Lower(s)[1..] == Lower(s[1..]);
    }
  }
}
