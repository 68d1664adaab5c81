/**
 The display identifier handed to the host page after a successful login:
 the part of the e-mail address before its first '@' (`email.split('@')[0]`
 in src/Login.js). Splitting a string with no '@' yields the whole string,
 and splitting the empty string yields the empty string.
 */
module Identifier {

  /** `p` is a prefix of `s` that stops exactly at the first '@' of `s` (or at its end). */
  predicate IsLocalPart(p: string, s: string) {
    && p <= s
    && '@' !in p
    && (|p| == |s| || s[|p|] == '@')
  }

  /** The first field of `s.split('@')`. */
  function LocalPart(s: string): (r: string)
    ensures r <= s
    ensures '@' !in r
    ensures |r| == |s| || s[|r|] == '@'
  {
    if |s| == 0 || s[0] == '@' then ""
    else [s[0]] + LocalPart(s[1..])
  }

  /** The three properties above pin the local part down: no other prefix has them. */
  lemma LocalPartUnique(s: string, p: string)
    requires IsLocalPart(p, s)
    ensures p == LocalPart(s)
  {
    var r := LocalPart(s);
    assert |p| == |r|;
  }

  /** Round trip: the local part of `local + "@" + domain` is `local` whenever `local` holds no '@'. */
  lemma LocalPartOfAddress(local: string, domain: string)
    requires '@' !in local
    ensures LocalPart(local + "@" + domain) == local
  {
    var s := local + "@" + domain;
    assert local <= s;
    assert s[|local|] == '@';
    LocalPartUnique(s, local);
  }

  /** An address without '@' is its own local part, so the identifier is never lost. */
  lemma LocalPartWithoutAt(s: string)
    requires '@' !in s
    ensures LocalPart(s) == s
  {
    LocalPartUnique(s, s);
  }

  /** The worked example of a successful login: "a@b.com" yields "a". */
  lemma LocalPartExample()
    ensures LocalPart("a@b.com") == "a"
  {
    LocalPartOfAddress("a", "b.com");
  }
}
