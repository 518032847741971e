/** UUIDs in their canonical text form, the form `uuid.UUID.String()`
    prints: 36 characters, lower-case hex digits with dashes at offsets 8,
    13, 18 and 23.  The text is the identity of the UUID. */
module Uuids {
  import opened Wrappers
  import Strings
  import opened Errors

  predicate IsLowerHex(c: char) {
    '0' <= c <= '9' || 'a' <= c <= 'f'
  }

  predicate IsHex(c: char) {
    IsLowerHex(c) || 'A' <= c <= 'F'
  }

  predicate IsDashIndex(i: int) {
    i == 8 || i == 13 || i == 18 || i == 23
  }

  /** The character at offset `i` of a canonical UUID. */
  predicate CanonicalAt(s: string, i: nat)
    requires i < |s|
  {
    if IsDashIndex(i) then s[i] == '-' else IsLowerHex(s[i])
  }

  /** Every character from offset `i` on is canonical, checked one at a
      time so that the constraint of `Uuid` stays cheap to assume. */
  predicate CanonicalFrom(s: string, i: nat)
    decreases |s| - i
  {
    i >= |s| || (CanonicalAt(s, i) && CanonicalFrom(s, i + 1))
  }

  predicate IsCanonical(s: string) {
    |s| == 36 && CanonicalFrom(s, 0)
  }

  lemma {:induction false} CanonicalFromAll(s: string, i: nat)
    ensures CanonicalFrom(s, i) <==> forall j :: i <= j < |s| ==> CanonicalAt(s, j)
    decreases |s| - i
  {
    if i < |s| {
      CanonicalFromAll(s, i + 1);
    }
  }

  /** The 36-character layout with hex digits of either case. */
  predicate IsWellFormed(s: string) {
    |s| == 36 && forall i :: 0 <= i < 36 ==> if IsDashIndex(i) then s[i] == '-' else IsHex(s[i])
  }

  /** The text of the all-zero UUID. */
  function NilText(): (s: string)
    ensures IsCanonical(s)
  {
    var s := "00000000-0000-0000-0000-000000000000";
    CanonicalFromAll(s, 0);
    s
  }

  type Uuid = s: string | IsCanonical(s)
    witness NilText()

  /** `uuid.Nil`, the all-zero UUID. */
  const Nil: Uuid := NilText()

  /** `uuid.Parse` on the 36-character form: hex digits of either case are
      accepted and the result is the canonical lower-case text. */
  function Parse(s: string): (r: Result<Uuid, Error>)
    ensures r.Ok? <==> IsWellFormed(s)
    ensures r.Ok? ==> r.value == Strings.ToLower(s)
    ensures |s| != 36 ==> r == Err(Message("invalid UUID length: " + Strings.Decimal(|s|)))
    ensures |s| == 36 && !IsWellFormed(s) ==> r == Err(Message("invalid UUID format"))
  {
    if |s| != 36 then Err(Message("invalid UUID length: " + Strings.Decimal(|s|)))
    else if !IsWellFormed(s) then Err(Message("invalid UUID format"))
    else
      var t := Strings.ToLower(s);
      assert forall i :: 0 <= i < 36 ==> t[i] == Strings.Lower(s[i]);
      CanonicalFromAll(t, 0);
      Ok(t)
  }

  /** Printing then parsing a UUID gives it back. */
  lemma ParseString(u: Uuid)
    ensures Parse(u) == Ok(u)
  {
    CanonicalFromAll(u, 0);
    forall i | 0 <= i < 36 ensures Strings.Lower(u[i]) == u[i] && (if IsDashIndex(i) then u[i] == '-' else IsHex(u[i])) {
      assert CanonicalAt(u, i);
    }
    assert Strings.ToLower(u) == u;
  }

  /** A UUID's text holds only lower-case hex digits and dashes. */
  lemma Alphabet(u: Uuid, c: char)
    requires !IsLowerHex(c) && c != '-'
    ensures c !in u
  {
    CanonicalFromAll(u, 0);
    forall i | 0 <= i < |u| ensures u[i] != c {
      assert CanonicalAt(u, i);
    }
  }
}
