/**
 The token gate (`token_required` and `validate_token` in employees/routes.py):
 read the `Authorization` header, insist on the `Bearer ` prefix, take the
 second space-separated word as the token, and let the request through only
 if the credentials table holds it. A scan that fails counts as "not found".
 */
module Gate {
  import opened Optional
  import opened Stores

  const BearerPrefix := "Bearer "
  const MissingTokenMessage := "Token is missing or invalid!"
  const InvalidTokenMessage := "Token is invalid!"

  datatype Verdict = Pass | Reject(message: string)

  predicate StartsWith(s: string, prefix: string) {
    |prefix| <= |s| && s[..|prefix|] == prefix
  }

  /** Python's `s.split(c)`: the pieces between occurrences of `c`. */
  function Split(s: string, c: char): (parts: seq<string>)
    ensures |parts| >= 1
    ensures forall i :: 0 <= i < |parts| ==> c !in parts[i]
    ensures c in s ==> |parts| >= 2
    decreases |s|
  {
    if |s| == 0 then [""]
    else
      var rest := Split(s[1..], c);
      if s[0] == c then [""] + rest
      else [[s[0]] + rest[0]] + rest[1..]
  }

  /** `c.join(parts)`, the inverse of `Split`. */
  function Join(parts: seq<string>, c: char): string
    requires |parts| >= 1
  {
    if |parts| == 1 then parts[0] else parts[0] + [c] + Join(parts[1..], c)
  }

  /** Splitting loses nothing: joining the pieces gives back the text. */
  lemma {:induction false} JoinSplit(s: string, c: char)
    ensures Join(Split(s, c), c) == s
    decreases |s|
  {
    if |s| > 0 {
      var rest := Split(s[1..], c);
      JoinSplit(s[1..], c);
      if s[0] != c {
        if |rest| == 1 {
          assert [s[0]] + rest[0] == s;
        } else {
          assert [s[0]] + rest[0] + [c] + Join(rest[1..], c) == [s[0]] + Join(rest, c);
        }
      }
    }
  }

  /** A piece free of the separator is the first piece of whatever follows it. */
  lemma {:induction false} SplitPrefix(p: string, q: string, c: char)
    requires c !in p
    ensures Split(p + q, c) == [p + Split(q, c)[0]] + Split(q, c)[1..]
    decreases |p|
  {
    if |p| > 0 {
      assert (p + q)[1..] == p[1..] + q;
      SplitPrefix(p[1..], q, c);
      assert [p[0]] + (p[1..] + Split(q, c)[0]) == p + Split(q, c)[0];
    } else {
      var parts := Split(q, c);
      assert p + q == q;
      assert p + parts[0] == parts[0];
      assert [parts[0]] + parts[1..] == parts;
    }
  }

  /** The token, `auth.split(' ')[1]`. */
  function ExtractToken(auth: string): string
    requires StartsWith(auth, BearerPrefix)
  {
    assert ' ' == auth[6];
    Split(auth, ' ')[1]
  }

  /**
   The token is the text between the first and second space: for a header
   `"Bearer " + t + rest` where `t` has no space and `rest` is empty or starts
   with one, the token is `t`.
   */
  lemma TokenIsSecondWord(t: string, rest: string)
    requires ' ' !in t
    requires rest == [] || rest[0] == ' '
    ensures StartsWith(BearerPrefix + t + rest, BearerPrefix)
    ensures ExtractToken(BearerPrefix + t + rest) == t
  {
    var auth := BearerPrefix + t + rest;
    assert auth[..|BearerPrefix|] == BearerPrefix;
    assert auth == "Bearer" + (" " + (t + rest));
    SplitPrefix("Bearer", " " + (t + rest), ' ');
    assert Split(" " + (t + rest), ' ') == [""] + Split(t + rest, ' ');
    SplitPrefix(t, rest, ' ');
    if rest == [] {
      assert t + rest == t;
      assert Split(t, ' ') == Split(t + [], ' ');
      assert Split(t + [], ' ')[0] == t + Split([], ' ')[0];
    } else {
      assert Split(rest, ' ')[0] == "";
    }
  }

  /**
   `validate_token`: the scan finds a record with this `access_token`. A scan
   that raises (no storage credentials, unreachable table) finds nothing.
   */
  predicate TokenAccepted(st: State, token: string) {
    st.access.Granted? && st.credentials.Reachable? && token in st.credentials.tokens
  }

  /** `token_required`'s decision for the request's `Authorization` header. */
  function Authorize(header: Option<string>, st: State): (v: Verdict)
    ensures v == Pass <==>
      header.Some? && StartsWith(header.value, BearerPrefix) && TokenAccepted(st, ExtractToken(header.value))
    ensures v.Reject? ==> v.message == MissingTokenMessage || v.message == InvalidTokenMessage
    ensures (header.None? || !StartsWith(header.value, BearerPrefix)) ==> v == Reject(MissingTokenMessage)
  {
    if header.None? || header.value == "" || !StartsWith(header.value, BearerPrefix) then
      Reject(MissingTokenMessage)
    else if !TokenAccepted(st, ExtractToken(header.value)) then
      Reject(InvalidTokenMessage)
    else
      Pass
  }

  /** Fail closed: when the credentials table cannot be scanned, nothing gets through. */
  lemma FailsClosed(header: Option<string>, st: State)
    requires st.credentials.Unreachable? || st.access.Denied?
    ensures Authorize(header, st).Reject?
  {
  }

}
