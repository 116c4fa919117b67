/** Agent addresses of the form did@hostname. */
module Address {
  import opened Units
  import opened Strings

  datatype AgentAddress = AgentAddress(did: string, hostname: string)

  datatype AddressError = MissingAt | EmptyDid | EmptyHostname

  /** The position of the last occurrence. */
  function LastIndex(s: string, c: char): (r: Option<nat>)
    ensures r.None? <==> c !in s
    ensures r.Some? ==> r.value < |s| && s[r.value] == c && forall i :: r.value < i < |s| ==> s[i] != c
  {
    if s == "" then None
    else if s[|s| - 1] == c then Some(|s| - 1)
    else
      var front := s[..|s| - 1];
      assert s == front + [s[|s| - 1]];
      LastIndex(front, c)
  }

  function ParseAddress(s: string): Result<AgentAddress, AddressError> {
    var at := LastIndex(s, '@');
    if at.None? then Err(MissingAt) else
      var did, hostname := Trim(s[..at.value]), Trim(s[at.value + 1..]);
      if did == "" then Err(EmptyDid)
      else if hostname == "" then Err(EmptyHostname)
      else Ok(AgentAddress(did, hostname))
  }

  function Format(a: AgentAddress): string {
    a.did + "@" + a.hostname
  }

  predicate WellFormed(a: AgentAddress) {
    a.did != "" && a.hostname != "" && Trimmed(a.did) && Trimmed(a.hostname) && '@' !in a.hostname
  }

  lemma {:induction false} LastIndexOf(x: string, y: string, c: char)
    requires c !in y
    ensures LastIndex(x + [c] + y, c) == Some(|x|)
    decreases |y|
  {
    var s := x + [c] + y;
    if y == "" {
      assert s[|s| - 1] == c;
    } else {
      var front := y[..|y| - 1];
      assert y == front + [y[|y| - 1]];
      assert s[..|s| - 1] == x + [c] + front;
      LastIndexOf(x, front, c);
    }
  }

  /** Printing an address and parsing it back gives the address exactly when both parts are non-empty
      and trimmed and the hostname has no '@'; the DID may contain one. */
  lemma FormatRoundTripsIff(a: AgentAddress)
    ensures ParseAddress(Format(a)) == Ok(a) <==> WellFormed(a)
  {
    var s := Format(a);
    assert s[|a.did|] == '@';
    var at := LastIndex(s, '@').value;
    TrimIsIdentityIff(a.did);
    TrimIsIdentityIff(a.hostname);
    if '@' in a.hostname {
      TrimMembers(s[at + 1..], '@');
    } else {
      LastIndexOf(a.did, a.hostname, '@');
      assert s[..|a.did|] == a.did && s[|a.did| + 1..] == a.hostname;
    }
  }

  /** Whatever parses is well formed, so it survives being printed and parsed again. */
  lemma ParsedIsWellFormed(s: string)
    ensures ParseAddress(s).Ok? ==>
              WellFormed(ParseAddress(s).value) && ParseAddress(Format(ParseAddress(s).value)) == ParseAddress(s)
  {
    var at := LastIndex(s, '@');
    if at.Some? {
      TrimIsIdentityIff(s[..at.value]);
      TrimIsIdentityIff(s[at.value + 1..]);
      TrimMembers(s[at.value + 1..], '@');
      if ParseAddress(s).Ok? {
        FormatRoundTripsIff(ParseAddress(s).value);
      }
    }
  }
}
