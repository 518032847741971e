/** internal/domain/value: the todo text and the user ID, both trimmed
    strings with a byte-length bound.  A valid value is the string itself, so
    `ToString` and `String` are the identity. */
module Values {
  import opened Wrappers
  import opened Strings
  import opened Errors

  const MaxTodoTextBytes: nat := 256
  const MaxUserIdBytes: nat := 128

  const ErrTodoTextEmpty: Error := Message("todo text cannot be empty")
  const ErrTodoTextTooLong: Error := Message("todo text cannot exceed 256 characters")
  const ErrUserIdEmpty: Error := Message("user ID cannot be empty")
  const ErrUserIdTooLong: Error := Message("user ID cannot exceed 128 characters")

  /** A Go `(T, error)` constructor result: on error the value is "". */
  datatype Validated = Validated(value: string, err: Option<Error>)

  /** White space only, or nothing at all. */
  predicate IsBlank(s: string) {
    forall i :: 0 <= i < |s| ==> IsSpace(s[i])
  }

  /** The shared shape of both constructors: trim, reject blank input, then
      reject input longer than `max` bytes. */
  function TrimBounded(s: string, max: nat, emptyErr: Error, longErr: Error): (r: Validated)
    ensures r.err.Some? ==> r.value == ""
    ensures r.err == Some(emptyErr) || r.err == Some(longErr) || r.err.None?
    ensures IsBlank(s) ==> r.err == Some(emptyErr)
    ensures !IsBlank(s) && |TrimSpace(s)| > max ==> r.err == Some(longErr)
    ensures r.err.None? <==> !IsBlank(s) && |TrimSpace(s)| <= max
    ensures r.err.None? ==> r.value == TrimSpace(s) && 0 < |r.value| <= max
  {
    TrimSpaceEmptyIff(s);
    var trimmed := TrimSpace(s);
    if trimmed == [] then Validated("", Some(emptyErr))
    else if |trimmed| > max then Validated("", Some(longErr))
    else Validated(trimmed, None)
  }

  /** Re-validating an accepted value returns it unchanged. */
  lemma {:induction false} TrimBoundedIdempotent(s: string, max: nat, emptyErr: Error, longErr: Error)
    requires TrimBounded(s, max, emptyErr, longErr).err.None?
    ensures var v := TrimBounded(s, max, emptyErr, longErr).value;
      TrimBounded(v, max, emptyErr, longErr) == Validated(v, None)
  {
    var v := TrimBounded(s, max, emptyErr, longErr).value;
    TrimSpaceIdempotent(s);
    TrimSpaceEmptyIff(v);
  }

  /** `NewTodoText`. */
  function NewTodoText(text: string): (r: Validated)
    ensures IsBlank(text) ==> r == Validated("", Some(ErrTodoTextEmpty))
    ensures !IsBlank(text) && |TrimSpace(text)| > 256 ==> r == Validated("", Some(ErrTodoTextTooLong))
    ensures r.err.None? <==> !IsBlank(text) && |TrimSpace(text)| <= 256
    ensures r.err.None? ==> r.value == TrimSpace(text) && 0 < |r.value| <= 256
  {
    TrimBounded(text, MaxTodoTextBytes, ErrTodoTextEmpty, ErrTodoTextTooLong)
  }

  /** `NewUserID`. */
  function NewUserId(id: string): (r: Validated)
    ensures IsBlank(id) ==> r == Validated("", Some(ErrUserIdEmpty))
    ensures !IsBlank(id) && |TrimSpace(id)| > 128 ==> r == Validated("", Some(ErrUserIdTooLong))
    ensures r.err.None? <==> !IsBlank(id) && |TrimSpace(id)| <= 128
    ensures r.err.None? ==> r.value == TrimSpace(id) && 0 < |r.value| <= 128
    ensures r.err.Some? ==> r.value == ""
  {
    TrimBounded(id, MaxUserIdBytes, ErrUserIdEmpty, ErrUserIdTooLong)
  }

  /** A valid todo text is a fixed point of `NewTodoText`. */
  lemma TodoTextIdempotent(text: string)
    requires NewTodoText(text).err.None?
    ensures NewTodoText(NewTodoText(text).value) == NewTodoText(text)
  {
    TrimBoundedIdempotent(text, MaxTodoTextBytes, ErrTodoTextEmpty, ErrTodoTextTooLong);
  }

  /** A valid user ID is a fixed point of `NewUserID`. */
  lemma UserIdIdempotent(id: string)
    requires NewUserId(id).err.None?
    ensures NewUserId(NewUserId(id).value) == NewUserId(id)
  {
    TrimBoundedIdempotent(id, MaxUserIdBytes, ErrUserIdEmpty, ErrUserIdTooLong);
  }

  /** A string with non-blank ends is its own trimmed form. */
  lemma TrimSpaceOfTrimmed(s: string)
    requires s != [] && !IsSpace(s[0]) && !IsSpace(s[|s| - 1])
    ensures TrimSpace(s) == s
  {
    assert TrimLeft(s) == s;
  }

  /** For text without surrounding white space, the length bound decides:
      exactly 256 bytes pass, 257 fail. */
  lemma TodoTextLengthBoundary(s: string)
    requires s != [] && !IsSpace(s[0]) && !IsSpace(s[|s| - 1])
    ensures NewTodoText(s).err.None? <==> |s| <= 256
    ensures |s| > 256 ==> NewTodoText(s).err == Some(ErrTodoTextTooLong)
  {
    TrimSpaceOfTrimmed(s);
  }

  /** For IDs without surrounding white space, exactly 128 bytes pass and
      129 fail. */
  lemma UserIdLengthBoundary(s: string)
    requires s != [] && !IsSpace(s[0]) && !IsSpace(s[|s| - 1])
    ensures NewUserId(s).err.None? <==> |s| <= 128
    ensures |s| > 128 ==> NewUserId(s).err == Some(ErrUserIdTooLong)
  {
    TrimSpaceOfTrimmed(s);
  }

  lemma TrimLeftUserExampleEnd()
    ensures TrimLeft("user123  ") == "user123  "
  {
    var v := "user123  ";
    assert v[0] == 'u';
  }

  lemma TrimLeftUserExample()
    ensures TrimLeft("  user123  ") == "user123  "
  {
    var u := "  user123  ";
    assert u[0] == ' ' && u[1..] == " user123  " && u[1..][1..] == "user123  ";
    TrimLeftUserExampleEnd();
    assert TrimLeft(" user123  ") == TrimLeft("user123  ");
  }

  lemma TrimRightUserExample()
    ensures TrimRight("user123  ") == "user123"
  {
    var v := "user123  ";
    assert v[8] == ' ' && v[..8] == "user123 ";
    assert "user123 "[7] == ' ' && "user123 "[..7] == "user123";
    assert TrimRight("user123") == "user123";
  }

  /** "  user123  " is accepted as "user123". */
  lemma UserIdExample()
    ensures NewUserId("  user123  ") == Validated("user123", None)
  {
    TrimLeftUserExample();
    TrimRightUserExample();
    var u := "  user123  ";
    assert !IsSpace(u[2]);
  }
}
