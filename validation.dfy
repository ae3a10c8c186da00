/** The checks the API applies at its boundary before a handler touches the
    session table: the request-model field rules for session ids and chat
    messages, and the bearer-key dependency. */
module Validation {
  import opened Outcomes

  const MaxSessionIdLength := 100
  const MaxMessageLength := 2000
  const KeyPrefix := "AI"

  /** One alphanumeric character. ASCII letters and digits stand in for
      Python's Unicode-aware classification. */
  predicate IsAlnumChar(c: char) {
    'a' <= c <= 'z' || 'A' <= c <= 'Z' || '0' <= c <= '9'
  }

  /** Python's `str.isalnum`: at least one character, all of them alphanumeric. */
  predicate IsAlnum(s: string) {
    |s| > 0 && forall i :: 0 <= i < |s| ==> IsAlnumChar(s[i])
  }

  /** `s.replace(c, '')`: every occurrence of `c` removed, order kept. */
  function RemoveAll(s: string, c: char): (r: string)
    ensures |r| <= |s|
    ensures forall x :: x in r <==> x in s && x != c
  {
    if s == [] then []
    else if s[0] == c then RemoveAll(s[1..], c)
    else [s[0]] + RemoveAll(s[1..], c)
  }

  /** The characters a session id is documented to allow. */
  predicate AllowedIdChar(c: char) {
    IsAlnumChar(c) || c == '-' || c == '_'
  }

  /** Every character is alphanumeric, `-` or `_`. */
  predicate OnlyAllowedChars(id: string) {
    forall i :: 0 <= i < |id| ==> AllowedIdChar(id[i])
  }

  /** Some character is alphanumeric. */
  predicate HasAlnumChar(id: string) {
    exists i :: 0 <= i < |id| && IsAlnumChar(id[i])
  }

  /** The `session_id` field of both request models: length 1 to 100, then
      hyphens and underscores stripped and the rest required to be alphanumeric.
      So an id is accepted exactly when its length is in range, every character
      is alphanumeric, `-` or `_`, and at least one character is alphanumeric. */
  predicate ValidSessionId(id: string): (ok: bool)
    ensures ok <==> 1 <= |id| <= MaxSessionIdLength && OnlyAllowedChars(id) && HasAlnumChar(id)
  {
    StrippedIdIsAlnum(id);
    1 <= |id| <= MaxSessionIdLength && IsAlnum(RemoveAll(RemoveAll(id, '-'), '_'))
  }

  /** The `message` field of a chat request: 1 to 2000 characters. */
  predicate ValidMessage(message: string): (ok: bool)
    ensures ok ==> message != []
    ensures |message| > MaxMessageLength ==> !ok
  {
    1 <= |message| <= MaxMessageLength
  }

  /** The `isalnum` test after stripping holds exactly when every character
      is alphanumeric, `-` or `_`, and at least one is alphanumeric. */
  lemma StrippedIdIsAlnum(id: string)
    ensures IsAlnum(RemoveAll(RemoveAll(id, '-'), '_')) <==> OnlyAllowedChars(id) && HasAlnumChar(id)
  {
    var r := RemoveAll(RemoveAll(id, '-'), '_');
    assert forall x :: x in r <==> x in id && x != '-' && x != '_';
    if IsAlnum(r) {
      forall i | 0 <= i < |id|
        ensures AllowedIdChar(id[i])
      {
        if id[i] != '-' && id[i] != '_' {
          assert id[i] in r;
          var j :| 0 <= j < |r| && r[j] == id[i];
        }
      }
      assert r[0] in id;
      var k :| 0 <= k < |id| && id[k] == r[0];
      assert IsAlnumChar(id[k]);
    }
    if (forall i :: 0 <= i < |id| ==> AllowedIdChar(id[i])) && (exists i :: 0 <= i < |id| && IsAlnumChar(id[i])) {
      var k :| 0 <= k < |id| && IsAlnumChar(id[k]);
      assert id[k] in r;
      forall j | 0 <= j < |r|
        ensures IsAlnumChar(r[j])
      {
        assert r[j] in r;
      }
    }
  }

  /** An id made only of hyphens and underscores is rejected, because
      nothing is left once they are stripped. */
  lemma SeparatorOnlyIdRejected(id: string)
    requires forall i :: 0 <= i < |id| ==> id[i] == '-' || id[i] == '_'
    ensures !ValidSessionId(id)
  {
  }

  /** Why a request was refused with 401. */
  datatype AuthFailure = MissingCredentials | MalformedKey

  /** The bearer-key dependency. `credentials` is `None` when the request
      carries no bearer credentials. The key is passed on unchanged when it
      starts with "AI"; the separate emptiness test is subsumed by the prefix. */
  function GetApiKey(credentials: Option<string>): (r: Result<string, AuthFailure>)
    ensures r.Success? <==> credentials.Some? && KeyPrefix <= credentials.value
    ensures r.Success? ==> r.value == credentials.value
    ensures r == Failure(MissingCredentials) <==> credentials.None?
  {
    match credentials
    case None => Failure(MissingCredentials)
    case Some(key) =>
      if |key| == 0 || !(KeyPrefix <= key) then Failure(MalformedKey) else Success(key)
  }
}
