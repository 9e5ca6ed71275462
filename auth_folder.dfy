/**
 * Credential-folder allocation: `nextAuthFolder` in index.js and in server.js.
 * The directory listing of the sessions root is an input; the result is the
 * name `auth_info<N>` where N is one more than the largest number read from the
 * names the variant counts.
 */
module AuthFolder {
  import opened Wrappers
  import opened Text

  const AuthPrefix: string := "auth_info"

  /** The largest `number` among the `counted` names, 0 when none is counted
      (`nums.length ? Math.max(...nums) : 0`). */
  function MaxNumber(names: seq<string>, counted: string -> bool, number: string -> nat): (m: nat)
    ensures forall i :: 0 <= i < |names| && counted(names[i]) ==> number(names[i]) <= m
    ensures m == 0 || exists i :: 0 <= i < |names| && counted(names[i]) && number(names[i]) == m
  {
    if names == [] then 0
    else
      var rest := MaxNumber(names[1..], counted, number);
      assert forall i :: 1 <= i < |names| ==> names[i] == names[1..][i - 1];
      if counted(names[0]) && number(names[0]) > rest then number(names[0]) else rest
  }

  // ---------------------------------------------------------------- index.js

  /** index.js counts every name starting with `auth_info` or `auth_`. */
  predicate IsAuthEntry(name: string) {
    StartsWith(name, "auth_info") || StartsWith(name, "auth_")
  }

  /** The value of the trailing digit run of `name` (`/(\d+)$/`), 0 when there is none. */
  function TrailingNumber(name: string): nat {
    DigitsValue(TrailingDigits(name))
  }

  /** A generated name is counted by index.js and reads back as its own number. */
  lemma AuthNameNumber(k: nat)
    ensures IsAuthEntry(AuthPrefix + Dec(k))
    ensures TrailingNumber(AuthPrefix + Dec(k)) == k
  {
    assert (AuthPrefix + Dec(k))[..9] == AuthPrefix;
    TrailingDigitsOfJoin(AuthPrefix, Dec(k));
    DecRoundTrip(k);
  }

  /** `nextAuthFolder()` of index.js over the listing `names`: the result is
      `auth_info<N>` with N one above every counted name's trailing number and
      equal to 1 or to one more than some counted name's number, so it never
      collides with an existing name. */
  function NextAuthFolder(names: seq<string>): (r: string)
    ensures StartsWith(r, AuthPrefix) && r == AuthPrefix + Dec(TrailingNumber(r))
    ensures forall i :: 0 <= i < |names| && IsAuthEntry(names[i]) ==> TrailingNumber(names[i]) < TrailingNumber(r)
    ensures TrailingNumber(r) == 1
         || exists i :: 0 <= i < |names| && IsAuthEntry(names[i]) && TrailingNumber(names[i]) + 1 == TrailingNumber(r)
    ensures r !in names
  {
    var k := MaxNumber(names, IsAuthEntry, TrailingNumber) + 1;
    AuthNameNumber(k);
    AuthPrefix + Dec(k)
  }

  /** With no counted name in the directory the first folder is `auth_info1`. */
  lemma FirstAuthFolder(names: seq<string>)
    requires forall i :: 0 <= i < |names| ==> !IsAuthEntry(names[i])
    ensures NextAuthFolder(names) == "auth_info1"
  {
    var r := NextAuthFolder(names);
    DecInjective(TrailingNumber(r), 1);
  }

  // --------------------------------------------------------------- server.js

  /** server.js counts only names starting with `auth_info`. */
  predicate IsServerAuthEntry(name: string) {
    StartsWith(name, AuthPrefix)
  }

  /** `name.match(/auth_info(\d+)/)`: the digit run after the leftmost `auth_info`
      that is followed by a digit, or None. */
  function AuthInfoDigits(s: string): (r: Option<string>)
    ensures r.Some? ==> r.value != [] && AllDigits(r.value)
    ensures r.None? <==> forall i :: !MatchAt(s, i)
    ensures r.Some? ==> exists i :: FirstMatchAt(s, i) && r.value == LeadingDigits(s[i + 9..])
    decreases |s|
  {
    if |s| < 10 then None
    else if s[..9] == AuthPrefix && IsDigit(s[9]) then
      assert FirstMatchAt(s, 0);
      Some(LeadingDigits(s[9..]))
    else
      var r := AuthInfoDigits(s[1..]);
      MatchAtShift(s);
      assert !MatchAt(s, 0);
      assert forall i :: MatchAt(s, i) ==> i >= 1 && MatchAt(s[1..], i - 1);
      if r.Some? then
        var i :| FirstMatchAt(s[1..], i) && r.value == LeadingDigits(s[1..][i + 9..]);
        assert s[1..][i + 9..] == s[i + 10..];
        assert FirstMatchAt(s, i + 1);
        r
      else
        r
  }

  /** `auth_info` followed by a digit starts at index `i` of `s`. */
  predicate MatchAt(s: string, i: int)
  {
    0 <= i && i + 10 <= |s| && s[i..i + 9] == AuthPrefix && IsDigit(s[i + 9])
  }

  /** `i` is the leftmost index where the pattern matches. */
  predicate FirstMatchAt(s: string, i: int)
  {
    MatchAt(s, i) && forall j :: 0 <= j < i ==> !MatchAt(s, j)
  }

  /** Dropping the first character moves every match one place to the left. */
  lemma MatchAtShift(s: string)
    requires s != []
    ensures forall i :: 0 <= i ==> (MatchAt(s[1..], i) <==> MatchAt(s, i + 1))
  {
    forall i | 0 <= i
      ensures MatchAt(s[1..], i) <==> MatchAt(s, i + 1)
    {
      if 0 <= i && i + 11 <= |s| {
        assert s[1..][i..i + 9] == s[i + 1..i + 10];
        assert s[1..][i + 9] == s[i + 10];
      }
    }
  }

  /** The number server.js reads from `name`, 0 when the pattern does not match. */
  function ServerNumber(name: string): nat {
    match AuthInfoDigits(name)
    case Some(d) => DigitsValue(d)
    case None => 0
  }

  /** A generated name is counted by server.js and reads back as its own number. */
  lemma ServerAuthNameNumber(k: nat)
    ensures IsServerAuthEntry(AuthPrefix + Dec(k))
    ensures ServerNumber(AuthPrefix + Dec(k)) == k
  {
    var s := AuthPrefix + Dec(k);
    assert s[..9] == AuthPrefix;
    assert s[9..] == Dec(k);
    assert LeadingDigits(s[9..]) == Dec(k);
    DecRoundTrip(k);
  }

  /** `nextAuthFolder()` of server.js over the listing `names`: `auth_info<N>`
      with N one above every counted name's number, and equal to 1 or to one
      more than some counted name's number; it never collides with an existing name. */
  function ServerNextAuthFolder(names: seq<string>): (r: string)
    ensures StartsWith(r, AuthPrefix) && r == AuthPrefix + Dec(ServerNumber(r))
    ensures forall i :: 0 <= i < |names| && IsServerAuthEntry(names[i]) ==> ServerNumber(names[i]) < ServerNumber(r)
    ensures ServerNumber(r) == 1
         || exists i :: 0 <= i < |names| && IsServerAuthEntry(names[i]) && ServerNumber(names[i]) + 1 == ServerNumber(r)
    ensures r !in names
  {
    var k := MaxNumber(names, IsServerAuthEntry, ServerNumber) + 1;
    ServerAuthNameNumber(k);
    AuthPrefix + Dec(k)
  }

  /** With no `auth_info` name in the directory the first folder is `auth_info1`. */
  lemma FirstServerAuthFolder(names: seq<string>)
    requires forall i :: 0 <= i < |names| ==> !IsServerAuthEntry(names[i])
    ensures ServerNextAuthFolder(names) == "auth_info1"
  {
    var r := ServerNextAuthFolder(names);
    DecInjective(ServerNumber(r), 1);
  }
}
