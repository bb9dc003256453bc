/**
 * `GenerateUUIDBoundary.getNewUUIDBoundary`: a multipart boundary made of a
 * fixed prefix and the text of a random UUID. The UUID is an input here.
 */
module UuidBoundary {

  const BoundaryPrefix: string := "----Boundary"

  /** The boundary for the UUID whose `toString()` is `uuid`. */
  function NewUuidBoundary(uuid: string): (b: string)
    ensures |b| == 12 + |uuid|
    ensures b[..12] == "----Boundary"
    ensures b[12..] == uuid
  {
    BoundaryPrefix + uuid
  }

  /** Distinct UUIDs give distinct boundaries. */
  lemma NewUuidBoundaryInjective(u: string, v: string)
    requires NewUuidBoundary(u) == NewUuidBoundary(v)
    ensures u == v
  {
    assert u == NewUuidBoundary(u)[12..];
  }

  predicate IsLowerHex(c: char) {
    '0' <= c <= '9' || 'a' <= c <= 'f'
  }

  /** The shape `UUID.toString()` always has: 8-4-4-4-12 lower-case hex digits. */
  predicate IsUuidText(u: string) {
    && |u| == 36
    && forall i :: 0 <= i < 36 ==>
         if i == 8 || i == 13 || i == 18 || i == 23 then u[i] == '-' else IsLowerHex(u[i])
  }

  /** `bcharsnospace` of section 5.1.1 of RFC 2046. */
  predicate IsBoundaryCharNoSpace(c: char) {
    || '0' <= c <= '9' || 'a' <= c <= 'z' || 'A' <= c <= 'Z'
    || c == '\'' || c == '(' || c == ')' || c == '+' || c == '_' || c == ','
    || c == '-' || c == '.' || c == '/' || c == ':' || c == '=' || c == '?'
  }

  /** A boundary as section 5.1.1 of RFC 2046 allows it: 1 to 70 `bchars`, not ending in a space. */
  predicate IsRfc2046Boundary(b: string) {
    && 1 <= |b| <= 70
    && (forall i :: 0 <= i < |b| ==> IsBoundaryCharNoSpace(b[i]) || b[i] == ' ')
    && IsBoundaryCharNoSpace(b[|b| - 1])
  }

  /** Every boundary built from a real UUID is a legal RFC 2046 boundary. */
  lemma UuidBoundaryIsRfc2046(uuid: string)
    requires IsUuidText(uuid)
    ensures IsRfc2046Boundary(NewUuidBoundary(uuid))
  {
    var b := NewUuidBoundary(uuid);
    forall i | 0 <= i < |b| ensures IsBoundaryCharNoSpace(b[i]) {
      if i < 12 {
        assert b[i] == BoundaryPrefix[i];
      } else {
        assert b[i] == uuid[i - 12];
      }
    }
  }
}
