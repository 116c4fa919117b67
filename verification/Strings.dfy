/** Whitespace and trimming, as the string library defines them. */
module Strings {

  /** The Unicode White_Space characters. */
  predicate IsSpace(c: char) {
    var p := c as int;
    || 0x9 <= p <= 0xD || p == 0x20 || p == 0x85 || p == 0xA0 || p == 0x1680
    || 0x2000 <= p <= 0x200A || p == 0x2028 || p == 0x2029 || p == 0x202F || p == 0x205F || p == 0x3000
  }

  function TrimStart(s: string): string {
    if s != "" && IsSpace(s[0]) then TrimStart(s[1..]) else s
  }

  function TrimEnd(s: string): string {
    if s != "" && IsSpace(s[|s| - 1]) then TrimEnd(s[..|s| - 1]) else s
  }

  function Trim(s: string): string {
    TrimEnd(TrimStart(s))
  }

  /** Neither end is whitespace. */
  predicate Trimmed(s: string) {
    s != "" ==> !IsSpace(s[0]) && !IsSpace(s[|s| - 1])
  }

  lemma {:induction false} TrimEndTrims(s: string)
    ensures TrimEnd(s) != "" ==> !IsSpace(TrimEnd(s)[|TrimEnd(s)| - 1]) && s != "" && TrimEnd(s)[0] == s[0]
  {
    if s != "" && IsSpace(s[|s| - 1]) {
      TrimEndTrims(s[..|s| - 1]);
    }
  }

  lemma {:induction false} TrimStartTrims(s: string)
    ensures TrimStart(s) != "" ==> !IsSpace(TrimStart(s)[0])
  {
    if s != "" && IsSpace(s[0]) {
      TrimStartTrims(s[1..]);
    }
  }

  /** Trimming yields a trimmed string, and leaves exactly the trimmed strings alone. */
  lemma TrimIsIdentityIff(s: string)
    ensures Trimmed(Trim(s))
    ensures Trim(s) == s <==> Trimmed(s)
  {
    TrimStartTrims(s);
    TrimEndTrims(TrimStart(s));
  }

  function StripPrefix(s: string, p: string): (r: string)
    requires p <= s
    ensures p + r == s
  {
    s[|p|..]
  }

  /** Cutting two equal strings at the first occurrence of a separator gives equal pieces. */
  lemma CutsAgree(a: string, b: string, a': string, b': string, sep: char)
    requires a + [sep] + b == a' + [sep] + b'
    requires sep !in a && sep !in a'
    ensures a == a' && b == b'
  {
    var s, s' := a + [sep] + b, a' + [sep] + b';
    assert s[|a|] == sep && forall i :: 0 <= i < |a| ==> s[i] == a[i];
    assert s'[|a'|] == sep && forall i :: 0 <= i < |a'| ==> s'[i] == a'[i];
    assert a == s[..|a|] && a' == s'[..|a'|];
    assert b == s[|a| + 1..] && b' == s'[|a'| + 1..];
  }

  lemma {:induction false} TrimEndShrinks(s: string)
    ensures TrimEnd(s) <= s
  {
    if s != "" && IsSpace(s[|s| - 1]) {
      TrimEndShrinks(s[..|s| - 1]);
    }
  }

  lemma {:induction false} TrimStartShrinks(s: string, c: char)
    ensures c in TrimStart(s) ==> c in s
  {
    if s != "" && IsSpace(s[0]) {
      TrimStartShrinks(s[1..], c);
    }
  }

  /** Trimming brings in no new characters. */
  lemma TrimMembers(s: string, c: char)
    ensures c in Trim(s) ==> c in s
  {
    TrimStartShrinks(s, c);
    TrimEndShrinks(TrimStart(s));
  }
}
