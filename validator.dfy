/**
 * The form validator: an error accumulator embedded in every form, and the pure
 * string predicates the handlers feed into it.
 */
module Validator {
  import opened Wrappers
  import opened Unicode

  /** The value a Validator holds: non-field messages in order, and at most one
      message per field key. Go's nil map and empty map are both the empty map here. */
  datatype Errors = Errors(nonFieldErrors: seq<String>, fieldErrors: map<String, String>)

  /** The zero Validator, as every freshly built form has it. */
  const NoErrors: Errors := Errors([], map[])

  /** Valid(): no field errors and no non-field errors. */
  predicate IsValid(e: Errors)
    ensures IsValid(e) <==> e.fieldErrors == map[] && e.nonFieldErrors == []
  {
    |e.fieldErrors| == 0 && |e.nonFieldErrors| == 0
  }

  /** The effect of AddFieldError: the first message recorded for a key wins. */
  function WithFieldError(e: Errors, key: String, message: String): (r: Errors)
    ensures r.nonFieldErrors == e.nonFieldErrors
    ensures r.fieldErrors.Keys == e.fieldErrors.Keys + {key}
    ensures r.fieldErrors[key] == if key in e.fieldErrors then e.fieldErrors[key] else message
    ensures forall k :: k in e.fieldErrors ==> r.fieldErrors[k] == e.fieldErrors[k]
    ensures key in e.fieldErrors ==> r == e
  {
    if key in e.fieldErrors then e else e.(fieldErrors := e.fieldErrors[key := message])
  }

  /** The effect of AddNonFieldError: the message goes at the end, earlier ones stay in order. */
  function WithNonFieldError(e: Errors, message: String): (r: Errors)
    ensures r.fieldErrors == e.fieldErrors
    ensures |r.nonFieldErrors| == |e.nonFieldErrors| + 1
    ensures r.nonFieldErrors[..|e.nonFieldErrors|] == e.nonFieldErrors
    ensures r.nonFieldErrors[|e.nonFieldErrors|] == message
  {
    e.(nonFieldErrors := e.nonFieldErrors + [message])
  }

  /** One call a handler makes on a form's Validator. */
  datatype Call =
    | Check(ok: bool, key: String, message: String)
    | AddField(key: String, message: String)
    | AddNonField(message: String)

  function Apply(e: Errors, c: Call): Errors
  {
    match c
    case Check(ok, key, message) => if ok then e else WithFieldError(e, key, message)
    case AddField(key, message) => WithFieldError(e, key, message)
    case AddNonField(message) => WithNonFieldError(e, message)
  }

  /** The calls performed one after another, left to right. */
  function ApplyAll(e: Errors, cs: seq<Call>): Errors
    decreases |cs|
  {
    if cs == [] then e else ApplyAll(Apply(e, cs[0]), cs[1..])
  }

  /** `r` keeps every message of `e`: same message per existing key, old non-field
      messages as a prefix. */
  predicate Extends(e: Errors, r: Errors) {
    && e.fieldErrors.Keys <= r.fieldErrors.Keys
    && (forall k :: k in e.fieldErrors ==> r.fieldErrors[k] == e.fieldErrors[k])
    && e.nonFieldErrors <= r.nonFieldErrors
  }

  /** No sequence of validator calls removes or rewrites a recorded message. */
  lemma {:induction false} ApplyAllExtends(e: Errors, cs: seq<Call>)
    ensures Extends(e, ApplyAll(e, cs))
    decreases |cs|
  {
    if cs != [] {
      var e' := Apply(e, cs[0]);
      ApplyAllExtends(e', cs[1..]);
      var r := ApplyAll(e', cs[1..]);
      assert e.nonFieldErrors <= e'.nonFieldErrors;
      assert e'.nonFieldErrors <= r.nonFieldErrors;
    }
  }

  /** Once Valid() is false, no further CheckField/AddFieldError/AddNonFieldError
      calls make it true again. */
  lemma InvalidStaysInvalid(e: Errors, cs: seq<Call>)
    requires !IsValid(e)
    ensures !IsValid(ApplyAll(e, cs))
  {
    ApplyAllExtends(e, cs);
    var r := ApplyAll(e, cs);
    if e.fieldErrors != map[] {
      var k :| k in e.fieldErrors;
      assert k in r.fieldErrors;
    } else {
      assert |e.nonFieldErrors| <= |r.nonFieldErrors|;
    }
  }

  /** The first message recorded for a key survives every later call. */
  lemma FirstErrorWins(e: Errors, cs: seq<Call>, key: String)
    requires key in e.fieldErrors
    ensures key in ApplyAll(e, cs).fieldErrors
    ensures ApplyAll(e, cs).fieldErrors[key] == e.fieldErrors[key]
  {
    ApplyAllExtends(e, cs);
  }

  /** CheckField calls whose checks all pass leave the validator as it was. */
  lemma {:induction false} PassingChecksChangeNothing(e: Errors, cs: seq<Call>)
    requires forall i :: 0 <= i < |cs| ==> cs[i].Check? && cs[i].ok
    ensures ApplyAll(e, cs) == e
    decreases |cs|
  {
    if cs != [] {
      PassingChecksChangeNothing(e, cs[1..]);
    }
  }

  /** Performing one more call after a sequence of calls. */
  lemma {:induction false} ApplyAllSnoc(e: Errors, cs: seq<Call>, c: Call)
    ensures ApplyAll(e, cs + [c]) == Apply(ApplyAll(e, cs), c)
    decreases |cs|
  {
    if cs != [] {
      assert (cs + [c])[1..] == cs[1..] + [c];
      ApplyAllSnoc(Apply(e, cs[0]), cs[1..], c);
    }
  }

  /** The message of the first failing CheckField for `key`, if any. */
  function FirstFailure(cs: seq<Call>, key: String): Option<String>
    decreases |cs|
  {
    if cs == [] then None
    else if cs[0].Check? && !cs[0].ok && cs[0].key == key then Some(cs[0].message)
    else FirstFailure(cs[1..], key)
  }

  /**
   * A run of CheckField calls records, for each key without a message yet, the
   * message of the first failing check for that key, and nothing else.
   */
  lemma {:induction false} ChecksRecordFirstFailures(e: Errors, cs: seq<Call>)
    requires forall i :: 0 <= i < |cs| ==> cs[i].Check?
    ensures ApplyAll(e, cs).nonFieldErrors == e.nonFieldErrors
    ensures forall k :: k in ApplyAll(e, cs).fieldErrors <==> k in e.fieldErrors || FirstFailure(cs, k).Some?
    ensures forall k :: k in ApplyAll(e, cs).fieldErrors ==>
      ApplyAll(e, cs).fieldErrors[k] == if k in e.fieldErrors then e.fieldErrors[k] else FirstFailure(cs, k).value
    decreases |cs|
  {
    if cs != [] {
      ChecksRecordFirstFailures(Apply(e, cs[0]), cs[1..]);
    }
  }

  /** The Validator struct embedded in each form; its methods update it in place. */
  class Validator {
    var nonFieldErrors: seq<String>
    var fieldErrors: map<String, String>

    function State(): Errors
      reads this
    {
      Errors(nonFieldErrors, fieldErrors)
    }

    /** The zero value of the struct. */
    constructor ()
      ensures State() == NoErrors
    {
      nonFieldErrors := [];
      fieldErrors := map[];
    }

    predicate Valid()
      reads this
    {
      IsValid(State())
    }

    method AddFieldError(key: String, message: String)
      modifies this
      ensures State() == WithFieldError(old(State()), key, message)
    {
      if key !in fieldErrors {
        fieldErrors := fieldErrors[key := message];
      }
    }

    method AddNonFieldError(message: String)
      modifies this
      ensures State() == WithNonFieldError(old(State()), message)
    {
      nonFieldErrors := nonFieldErrors + [message];
    }

    method CheckField(ok: bool, key: String, message: String)
      modifies this
      ensures State() == Apply(old(State()), Check(ok, key, message))
      ensures ok ==> State() == old(State())
      ensures !ok ==> State() == WithFieldError(old(State()), key, message)
    {
      if !ok {
        AddFieldError(key, message);
      }
    }
  }

  /** strings.TrimLeftFunc(s, unicode.IsSpace): drop the leading white space. */
  function TrimLeft(s: String): (r: String)
    ensures |r| <= |s| && r == s[|s| - |r|..]
    ensures r == [] || !IsSpace(r[0])
    ensures forall i :: 0 <= i < |s| - |r| ==> IsSpace(s[i])
  {
    if s != [] && IsSpace(s[0]) then TrimLeft(s[1..]) else s
  }

  /** strings.TrimRightFunc(s, unicode.IsSpace): drop the trailing white space. */
  function TrimRight(s: String): (r: String)
    ensures |r| <= |s| && r == s[..|r|]
    ensures r == [] || !IsSpace(r[|r| - 1])
    ensures forall i :: |r| <= i < |s| ==> IsSpace(s[i])
  {
    if s != [] && IsSpace(s[|s| - 1]) then TrimRight(s[..|s| - 1]) else s
  }

  /** strings.TrimSpace. */
  function TrimSpace(s: String): (r: String)
    ensures |r| <= |TrimLeft(s)| && r == TrimLeft(s)[..|r|]
    ensures forall i :: |r| <= i < |TrimLeft(s)| ==> IsSpace(TrimLeft(s)[i])
    ensures r == [] || (!IsSpace(r[0]) && !IsSpace(r[|r| - 1]))
    ensures r == [] <==> forall i :: 0 <= i < |s| ==> IsSpace(s[i])
  {
    var l := TrimLeft(s);
    var r := TrimRight(l);
    assert r == s[|s| - |l|..][..|r|];
    assert r != [] ==> r[0] == l[0];
    r
  }

  /** NotBlank: some rune is not white space, so the empty string and
      all-white-space strings are blank. */
  predicate NotBlank(value: String) {
    exists i :: 0 <= i < |value| && !IsSpace(value[i])
  }

  /** NotBlank is the test the validator writes, strings.TrimSpace(value) != "". */
  lemma NotBlankTrims(value: String)
    ensures NotBlank(value) <==> TrimSpace(value) != []
    ensures !NotBlank(value) <==> value == [] || forall i :: 0 <= i < |value| ==> IsSpace(value[i])
  {
  }

  /** MaxChars: the rune count, not the byte length, is compared with n. */
  predicate MaxChars(value: String, n: int) {
    |value| <= n
  }

  /** A string within n bytes is within n runes; the converse fails for
      multi-byte runes, e.g. "é" is 1 rune and 2 bytes. */
  lemma MaxCharsCountsRunes(value: String, n: int)
    ensures ByteLength(value) <= n ==> MaxChars(value, n)
    ensures MaxChars("\U{00E9}", 1) && ByteLength("\U{00E9}") == 2
  {
  }

  /** A string within n runes takes at most 4n bytes in UTF-8, so MaxChars bounds
      the stored size too. */
  lemma {:induction false} MaxCharsBoundsBytes(value: String, n: int)
    requires MaxChars(value, n)
    ensures ByteLength(value) <= 4 * n
  {
    if value != [] {
      MaxCharsBoundsBytes(value[1..], n - 1);
    }
  }

  predicate HasUpper(s: String) {
    exists i :: 0 <= i < |s| && IsUpper(s[i])
  }

  predicate HasDigit(s: String) {
    exists i :: 0 <= i < |s| && IsDigit(s[i])
  }

  /** The password policy: an upper-case rune, a digit, and at least 8 runes. */
  predicate StrongPassword(s: String) {
    HasUpper(s) && HasDigit(s) && |s| >= 8
  }

  /** CheckPassword, with the flag-setting loop over the runes of the value. */
  method CheckPassword(value: String) returns (ok: bool)
    ensures ok <==> StrongPassword(value)
  {
    var hasUpper := false;
    var hasDigit := false;
    for i := 0 to |value|
      invariant hasUpper <==> exists j :: 0 <= j < i && IsUpper(value[j])
      invariant hasDigit <==> exists j :: 0 <= j < i && IsDigit(value[j])
    {
      if IsUpper(value[i]) {
        hasUpper := true;
      }
      if IsDigit(value[i]) {
        hasDigit := true;
      }
    }
    var minChars := |value| >= 8;
    ok := hasUpper && hasDigit && minChars;
  }

  lemma PasswordExamples()
    ensures StrongPassword("Abc12345")
    ensures !StrongPassword("abcdefgh")
    ensures !StrongPassword("Ab1")
  {
    assert IsUpper("Abc12345"[0]) && IsDigit("Abc12345"[3]);
    assert !HasUpper("abcdefgh") by {
      forall i | 0 <= i < 8 ensures !IsUpper("abcdefgh"[i]) {
      }
    }
  }
}
