/** The Signature header of outbound requests, its parser, and the signing string both sides build
    (section 2.3 of draft-cavage-http-signatures-12). Signing and encoding are left as parameters. */
module HttpSignature {
  import opened Units
  import opened Strings

  // ---------------------------------------------------------------------------
  // Splitting the header into parameters
  // ---------------------------------------------------------------------------

  /** The scan from a given point: what has been collected of the current parameter, and whether the
      scan is inside quotes. */
  function Split(s: string, current: string, inQuotes: bool): seq<string>
    decreases |s|
  {
    if s == "" then (if Trim(current) != "" then [Trim(current)] else [])
    else if s[0] == '\"' then Split(s[1..], current + [s[0]], !inQuotes)
    else if s[0] == ',' && !inQuotes then [Trim(current)] + Split(s[1..], "", inQuotes)
    else Split(s[1..], current + [s[0]], inQuotes)
  }

  function Quotes(s: string): nat {
    if s == "" then 0 else Quotes(s[..|s| - 1]) + if s[|s| - 1] == '\"' then 1 else 0
  }

  /** A comma outside quotes: one with an even number of quotes before it. */
  predicate IsCut(s: string, i: nat) {
    i < |s| && s[i] == ',' && Quotes(s[..i]) % 2 == 0
  }

  function NextCut(s: string, i: nat): (n: nat)
    requires i <= |s|
    ensures i <= n <= |s| && (n < |s| ==> IsCut(s, n)) && forall k: nat :: i <= k < n ==> !IsCut(s, k)
    decreases |s| - i
  {
    if i == |s| || IsCut(s, i) then i else NextCut(s, i + 1)
  }

  /** The stretches of `s` between the cuts, from `start` on, trimmed; a blank last one is dropped. */
  function Pieces(s: string, start: nat): seq<string>
    requires start <= |s|
    decreases |s| - start
  {
    var n := NextCut(s, start);
    if n < |s| then [Trim(s[start..n])] + Pieces(s, n + 1)
    else if Trim(s[start..]) != "" then [Trim(s[start..])]
    else []
  }

  lemma QuotesBefore(s: string, i: nat)
    requires i < |s|
    ensures Quotes(s[..i + 1]) == Quotes(s[..i]) + if s[i] == '\"' then 1 else 0
  {
    assert s[..i + 1][..i] == s[..i];
  }

  /** The scan knows by its flag whether it is inside quotes, and has collected what came since the last cut. */
  lemma {:induction false} ScanIsPieces(s: string, start: nat, i: nat)
    requires start <= i <= |s| && forall k: nat :: start <= k < i ==> !IsCut(s, k)
    ensures Split(s[i..], s[start..i], Quotes(s[..i]) % 2 == 1) == Pieces(s, start)
    decreases |s| - i
  {
    hide Trim;
    if i == |s| {
      assert s[i..] == "" && s[start..i] == s[start..];
    } else {
      assert s[i..][0] == s[i] && s[i..][1..] == s[i + 1..];
      QuotesBefore(s, i);
      if IsCut(s, i) {
        assert NextCut(s, start) == i;
        assert s[i + 1..i + 1] == "";
        ScanIsPieces(s, i + 1, i + 1);
      } else {
        assert s[start..i] + [s[i]] == s[start..i + 1];
        ScanIsPieces(s, start, i + 1);
      }
    }
  }

  /** The header is split at exactly the commas outside quotes. */
  lemma SplitsAtCuts(s: string)
    ensures Split(s, "", false) == Pieces(s, 0)
  {
    assert s[0..] == s && s[0..0] == "" && s[..0] == "";
    ScanIsPieces(s, 0, 0);
  }

  method SplitSignatureParams(s: string) returns (parts: seq<string>)
    ensures parts == Pieces(s, 0) == Split(s, "", false)
  {
    SplitsAtCuts(s);
    hide Pieces;
    parts := [];
    var current, inQuotes := "", false;
    for i := 0 to |s|
      invariant Split(s, "", false) == parts + Split(s[i..], current, inQuotes)
    {
      assert s[i..][0] == s[i] && s[i..][1..] == s[i + 1..];
      var ch := s[i];
      if ch == '\"' {
        inQuotes := !inQuotes;
        current := current + [ch];
      } else if ch == ',' && !inQuotes {
        parts := parts + [Trim(current)];
        current := "";
      } else {
        current := current + [ch];
      }
    }
    if Trim(current) != "" {
      parts := parts + [Trim(current)];
    }
  }

  function Unquote(s: string): Option<string> {
    var t := Trim(s);
    if |t| >= 2 && t[0] == '\"' && t[|t| - 1] == '\"' then Some(t[1..|t| - 1]) else None
  }

  /** Splitting at every single space. */
  function SplitSpaces(s: string): (parts: seq<string>)
    ensures parts != []
  {
    if s == "" then [""] else
      var rest := SplitSpaces(s[1..]);
      if s[0] == ' ' then [""] + rest else [[s[0]] + rest[0]] + rest[1..]
  }

  // ---------------------------------------------------------------------------
  // Parsing
  // ---------------------------------------------------------------------------

  datatype Parsed = Parsed(keyId: string, algorithm: string, headers: seq<string>, signature: string)

  datatype ParseError = NotQuoted | MissingKeyId | MissingSignature

  datatype Fields = Fields(
    keyId: Option<string>, algorithm: Option<string>, headers: Option<seq<string>>, signature: Option<string>)

  /** One parameter: a later one of the same name replaces an earlier one, unknown names are skipped. */
  function TakeParam(f: Fields, part: string): Result<Fields, ParseError> {
    var p := Trim(part);
    if "keyId=" <= p then
      var v := Unquote(StripPrefix(p, "keyId="));
      if v.None? then Err(NotQuoted) else Ok(f.(keyId := v))
    else if "algorithm=" <= p then
      var v := Unquote(StripPrefix(p, "algorithm="));
      if v.None? then Err(NotQuoted) else Ok(f.(algorithm := v))
    else if "headers=" <= p then
      var v := Unquote(StripPrefix(p, "headers="));
      if v.None? then Err(NotQuoted) else Ok(f.(headers := Some(SplitSpaces(v.value))))
    else if "signature=" <= p then
      var v := Unquote(StripPrefix(p, "signature="));
      if v.None? then Err(NotQuoted) else Ok(f.(signature := v))
    else Ok(f)
  }

  function TakeParams(f: Fields, parts: seq<string>): Result<Fields, ParseError>
    decreases |parts|
  {
    if parts == [] then Ok(f) else
      match TakeParam(f, parts[0])
      case Err(e) => Err(e)
      case Ok(g) => TakeParams(g, parts[1..])
  }

  const NoFields: Fields := Fields(None, None, None, None)

  /** keyId and signature are required; the algorithm defaults to ed25519 and the header list to date. */
  function Complete(f: Fields): Result<Parsed, ParseError> {
    if f.keyId.None? then Err(MissingKeyId)
    else if f.signature.None? then Err(MissingSignature)
    else Ok(Parsed(f.keyId.value,
                   if f.algorithm.Some? then f.algorithm.value else "ed25519",
                   if f.headers.Some? then f.headers.value else ["date"],
                   f.signature.value))
  }

  function Parse(header: string): Result<Parsed, ParseError> {
    match TakeParams(NoFields, Split(header, "", false))
    case Err(e) => Err(e)
    case Ok(f) => Complete(f)
  }

  // ---------------------------------------------------------------------------
  // What the parser reads off a header, said without the parser
  // ---------------------------------------------------------------------------

  datatype Name = KeyId | Algorithm | HeaderList | Signature {
    function Text(): string {
      match this
      case KeyId => "keyId="
      case Algorithm => "algorithm="
      case HeaderList => "headers="
      case Signature => "signature="
    }
  }

  /** The part is for the parameter of this name. */
  predicate IsFor(part: string, name: Name) {
    name.Text() <= Trim(part)
  }

  /** The part gives the parameter this value, in double quotes. */
  predicate Gives(part: string, name: Name, v: string) {
    IsFor(part, name) && Trim(Trim(part)[|name.Text()|..]) == "\"" + v + "\""
  }

  ghost predicate WellQuoted(parts: seq<string>) {
    forall i, name :: 0 <= i < |parts| && IsFor(parts[i], name) ==> exists v :: Gives(parts[i], name, v)
  }

  ghost predicate Named(parts: seq<string>, name: Name) {
    exists i :: 0 <= i < |parts| && IsFor(parts[i], name)
  }

  /** The last part for the parameter gives it this value. */
  ghost predicate LastGives(parts: seq<string>, name: Name, v: string) {
    exists i :: 0 <= i < |parts| && Gives(parts[i], name, v) && forall j :: i < j < |parts| ==> !IsFor(parts[j], name)
  }

  /** `words` are the stretches of `text` between single spaces. */
  ghost predicate SpaceSeparated(text: string, words: seq<string>) {
    JoinSpaces(words) == text && words != [] && forall i :: 0 <= i < |words| ==> ' ' !in words[i]
  }

  function JoinSpaces(words: seq<string>): string {
    if words == [] then "" else if |words| == 1 then words[0] else words[0] + " " + JoinSpaces(words[1..])
  }

  lemma {:induction false} SplitSpacesSeparates(s: string)
    ensures SpaceSeparated(s, SplitSpaces(s))
  {
    if s != "" {
      var rest := SplitSpaces(s[1..]);
      SplitSpacesSeparates(s[1..]);
      if s[0] == ' ' {
        assert ([""] + rest)[1..] == rest;
      } else {
        assert ([[s[0]] + rest[0]] + rest[1..])[1..] == rest[1..];
        if |rest| == 1 {
          assert [s[0]] + rest[0] == s;
        } else {
          assert [s[0]] + rest[0] + " " + JoinSpaces(rest[1..]) == [s[0]] + (rest[0] + " " + JoinSpaces(rest[1..]));
        }
      }
    }
  }

  /** The field holds what the last of the parts for it gives, and nothing if there is none. */
  ghost predicate Holds(field: Option<string>, parts: seq<string>, name: Name) {
    if Named(parts, name) then field.Some? && LastGives(parts, name, field.value) else field.None?
  }

  ghost predicate HoldsList(field: Option<seq<string>>, parts: seq<string>, name: Name) {
    if Named(parts, name) then field.Some? && exists v :: LastGives(parts, name, v) && SpaceSeparated(v, field.value)
    else field.None?
  }

  ghost predicate FieldsAre(f: Fields, parts: seq<string>) {
    && Holds(f.keyId, parts, KeyId) && Holds(f.algorithm, parts, Algorithm)
    && HoldsList(f.headers, parts, HeaderList) && Holds(f.signature, parts, Signature)
  }

  lemma OneMorePart(parts: seq<string>, part: string, name: Name)
    ensures Named(parts + [part], name) <==> Named(parts, name) || IsFor(part, name)
    ensures forall v :: LastGives(parts + [part], name, v) <==>
                          if IsFor(part, name) then Gives(part, name, v) else LastGives(parts, name, v)
  {
    hide LastGives, Gives, IsFor;
    var all, n := parts + [part], |parts|;
    assert all[n] == part && forall i :: 0 <= i < n ==> all[i] == parts[i];
    forall v
      ensures LastGives(all, name, v) <==> if IsFor(part, name) then Gives(part, name, v) else LastGives(parts, name, v)
    {
      LastOfMore(parts, part, name, v);
    }
  }

  lemma LastOfMore(parts: seq<string>, part: string, name: Name, v: string)
    ensures LastGives(parts + [part], name, v) <==>
              if IsFor(part, name) then Gives(part, name, v) else LastGives(parts, name, v)
  {
    GivenIsFor(part, name, v);
    hide IsFor, Gives;
    var all, n := parts + [part], |parts|;
    assert all[n] == part && forall i :: 0 <= i < n ==> all[i] == parts[i];
    if i :| 0 <= i < n && Gives(parts[i], name, v) && forall j :: i < j < n ==> !IsFor(parts[j], name) {
      assert Gives(all[i], name, v);
    }
    if i :| 0 <= i < |all| && Gives(all[i], name, v) && forall j :: i < j < |all| ==> !IsFor(all[j], name) {
      if i < n {
        assert Gives(parts[i], name, v) && !IsFor(all[n], name);
      }
    }
  }

  lemma GivenIsFor(part: string, name: Name, v: string)
    ensures Gives(part, name, v) ==> IsFor(part, name)
  {
  }

  lemma GivenIsUnquoted(part: string, name: Name)
    requires IsFor(part, name)
    ensures var u := Unquote(StripPrefix(Trim(part), name.Text()));
            if u.None? then forall v :: !Gives(part, name, v) else Gives(part, name, u.value)
  {
    hide Trim;
    var t := Trim(Trim(part)[|name.Text()|..]);
    if |t| >= 2 && t[0] == '\"' && t[|t| - 1] == '\"' {
      assert t == "\"" + t[1..|t| - 1] + "\"";
    } else {
      forall v ensures !Gives(part, name, v) {
        var q := "\"" + v + "\"";
        assert |q| >= 2 && q[0] == '\"' && q[|q| - 1] == '\"';
      }
    }
  }

  lemma NamesExclude(part: string, a: Name, b: Name)
    requires IsFor(part, a) && IsFor(part, b)
    ensures a == b
  {
    hide Trim;
    assert "keyId="[0] == 'k' && "algorithm="[0] == 'a' && "headers="[0] == 'h' && "signature="[0] == 's';
    assert Trim(part)[0] == a.Text()[0] == b.Text()[0];
  }

  lemma OnlyName(part: string, name: Name)
    requires IsFor(part, name)
    ensures forall other :: IsFor(part, other) ==> other == name
  {
    forall other | IsFor(part, other) ensures other == name {
      NamesExclude(part, name, other);
    }
  }

  /** The fields with one of them replaced. */
  function With(f: Fields, name: Name, v: string): Fields {
    match name
    case KeyId => f.(keyId := Some(v))
    case Algorithm => f.(algorithm := Some(v))
    case HeaderList => f.(headers := Some(SplitSpaces(v)))
    case Signature => f.(signature := Some(v))
  }

  lemma TakeParamOf(f: Fields, part: string, name: Name)
    requires IsFor(part, name)
    ensures var u := Unquote(StripPrefix(Trim(part), name.Text()));
            TakeParam(f, part) == if u.None? then Err(NotQuoted) else Ok(With(f, name, u.value))
  {
    hide Trim, Unquote, SplitSpaces;
    OnlyName(part, name);
    assert name == KeyId || !IsFor(part, KeyId);
    assert name == Algorithm || !IsFor(part, Algorithm);
    assert name == HeaderList || !IsFor(part, HeaderList);
  }

  lemma KeepsHolding(field: Option<string>, list: Option<seq<string>>, parts: seq<string>, part: string, name: Name)
    requires !IsFor(part, name)
    ensures Holds(field, parts, name) ==> Holds(field, parts + [part], name)
    ensures HoldsList(list, parts, name) ==> HoldsList(list, parts + [part], name)
  {
    hide IsFor, LastGives, Named, SpaceSeparated;
    OneMorePart(parts, part, name);
  }

  lemma HoldsNew(parts: seq<string>, part: string, name: Name, v: string)
    requires Gives(part, name, v)
    ensures Holds(Some(v), parts + [part], name) && HoldsList(Some(SplitSpaces(v)), parts + [part], name)
  {
    SplitSpacesSeparates(v);
    hide LastGives, Named, SpaceSeparated;
    OneMorePart(parts, part, name);
  }

  lemma OtherPart(f: Fields, parts: seq<string>, part: string)
    requires FieldsAre(f, parts) && forall name: Name :: !IsFor(part, name)
    ensures TakeParam(f, part) == Ok(f) && FieldsAre(f, parts + [part])
  {
    hide Trim, Holds, HoldsList;
    KeepsHolding(f.keyId, None, parts, part, KeyId);
    KeepsHolding(f.algorithm, None, parts, part, Algorithm);
    KeepsHolding(None, f.headers, parts, part, HeaderList);
    KeepsHolding(f.signature, None, parts, part, Signature);
    assert !IsFor(part, KeyId) && !IsFor(part, Algorithm) && !IsFor(part, HeaderList) && !IsFor(part, Signature);
  }

  lemma PartReplaces(f: Fields, parts: seq<string>, part: string, name: Name, v: string)
    requires FieldsAre(f, parts) && Gives(part, name, v)
    ensures FieldsAre(With(f, name, v), parts + [part])
  {
    OnlyName(part, name);
    HoldsNew(parts, part, name, v);
    hide Gives, Holds, HoldsList, IsFor;
    if name != KeyId {
      KeepsHolding(f.keyId, None, parts, part, KeyId);
    }
    if name != Algorithm {
      KeepsHolding(f.algorithm, None, parts, part, Algorithm);
    }
    if name != HeaderList {
      KeepsHolding(None, f.headers, parts, part, HeaderList);
    }
    if name != Signature {
      KeepsHolding(f.signature, None, parts, part, Signature);
    }
  }

  lemma TakeParamReads(f: Fields, parts: seq<string>, part: string)
    requires FieldsAre(f, parts)
    ensures match TakeParam(f, part)
            case Err(e) => e == NotQuoted && !WellQuoted([part])
            case Ok(g) => WellQuoted([part]) && FieldsAre(g, parts + [part])
  {
    assert [part][0] == part;
    if name :| IsFor(part, name) {
      TakeParamOf(f, part, name);
      GivenIsUnquoted(part, name);
      var u := Unquote(StripPrefix(Trim(part), name.Text()));
      hide TakeParam, FieldsAre, Unquote, Gives, With;
      if u.Some? {
        PartReplaces(f, parts, part, name, u.value);
        OnlyName(part, name);
      }
    } else {
      OtherPart(f, parts, part);
    }
  }

  lemma {:induction false} TakeParamsReads(f: Fields, done: seq<string>, parts: seq<string>)
    requires FieldsAre(f, done)
    ensures match TakeParams(f, parts)
            case Err(e) => e == NotQuoted && !WellQuoted(parts)
            case Ok(g) => WellQuoted(parts) && FieldsAre(g, done + parts)
    decreases |parts|
  {
    hide FieldsAre, TakeParam, IsFor, Gives;
    if parts == [] {
      assert done + parts == done;
    } else {
      TakeParamReads(f, done, parts[0]);
      assert parts == [parts[0]] + parts[1..];
      match TakeParam(f, parts[0]) {
        case Err(e) =>
          assert [parts[0]][0] == parts[0];
        case Ok(g) =>
          assert done + [parts[0]] + parts[1..] == done + parts;
          TakeParamsReads(g, done + [parts[0]], parts[1..]);
          QuotedCons(parts[0], parts[1..]);
      }
    }
  }

  lemma QuotedCons(part: string, parts: seq<string>)
    ensures WellQuoted([part] + parts) <==> WellQuoted([part]) && WellQuoted(parts)
  {
    hide IsFor, Gives;
    var all := [part] + parts;
    assert all[0] == [part][0] && forall i :: 0 <= i < |parts| ==> all[i + 1] == parts[i];
    if WellQuoted([part]) && WellQuoted(parts) {
      forall i, name | 0 <= i < |all| && IsFor(all[i], name) ensures exists v :: Gives(all[i], name, v) {
        if i > 0 {
          assert all[i] == parts[i - 1];
        }
      }
    }
  }

  /** For every header: it is refused as badly quoted exactly when some part for one of the four parameters
      has a value without double quotes; otherwise as lacking the key id, or else the signature, exactly
      when no part is for it. If it is accepted, every value is that of the last part for it, the header
      list is that value cut at single spaces, the algorithm defaults to ed25519 and the list to date. */
  lemma ParseReads(header: string)
    ensures var parts, r := Pieces(header, 0), Parse(header);
            && (r == Err(NotQuoted) <==> !WellQuoted(parts))
            && (r == Err(MissingKeyId) <==> WellQuoted(parts) && !Named(parts, KeyId))
            && (r == Err(MissingSignature) <==> WellQuoted(parts) && Named(parts, KeyId) && !Named(parts, Signature))
            && (r.Ok? ==>
                  && LastGives(parts, KeyId, r.value.keyId) && LastGives(parts, Signature, r.value.signature)
                  && (if Named(parts, Algorithm) then LastGives(parts, Algorithm, r.value.algorithm)
                      else r.value.algorithm == "ed25519")
                  && (if Named(parts, HeaderList)
                      then exists v :: LastGives(parts, HeaderList, v) && SpaceSeparated(v, r.value.headers)
                      else r.value.headers == ["date"]))
  {
    var parts := Pieces(header, 0);
    SplitsAtCuts(header);
    NothingRead();
    TakeParamsReads(NoFields, [], parts);
    assert [] + parts == parts;
    hide TakeParams, Split, Pieces, WellQuoted, Named, LastGives, SpaceSeparated;
  }

  lemma NothingRead()
    ensures FieldsAre(NoFields, [])
  {
  }

  method ParseSignatureHeader(header: string) returns (r: Result<Parsed, ParseError>)
    ensures r == Parse(header)
  {
    var parts := SplitSignatureParams(header);
    var fields := NoFields;
    for i := 0 to |parts|
      invariant TakeParams(NoFields, parts) == TakeParams(fields, parts[i..])
    {
      assert parts[i..][0] == parts[i] && parts[i..][1..] == parts[i + 1..];
      var next := TakeParam(fields, parts[i]);
      match next {
        case Err(e) => return Err(e);
        case Ok(f) => fields := f;
      }
    }
    r := Complete(fields);
  }

  // ---------------------------------------------------------------------------
  // Building
  // ---------------------------------------------------------------------------

  const SIGNED_HEADERS: string := "(request-target)" + " " + ("host" + " " + "date")

  function Param(name: string, value: string): string {
    name + "\"" + value + "\""
  }

  /** The Signature header value for a node's DID and an encoded signature. */
  function SignatureHeader(did: string, sig: string): string {
    Param("keyId=", did) + "," + (Param("algorithm=", "ed25519") + "," +
      (Param("headers=", SIGNED_HEADERS) + "," + Param("signature=", sig)))
  }

  function SigningString(verb: string, path: string, host: string, date: string): string {
    "(request-target): " + verb + " " + path + "\n" + ("host: " + host + "\n" + ("date: " + date))
  }

  /** The Date and Signature values of an outbound request; `sign` signs and encodes. */
  function BuildOutboundSignature(
    sign: string -> string, did: string, verb: string, path: string, host: string, date: string)
    : (string, string)
  {
    (date, SignatureHeader(did, sign(SigningString(verb, path, host, date))))
  }

  // ---------------------------------------------------------------------------
  // Parsing what was built
  // ---------------------------------------------------------------------------

  lemma {:induction false} ScanInside(q: string, rest: string, current: string)
    requires '\"' !in q
    ensures Split(q + rest, current, true) == Split(rest, current + q, true)
    decreases |q|
  {
    if q == "" {
      assert q + rest == rest && current + q == current;
    } else {
      assert (q + rest)[0] == q[0] && (q + rest)[1..] == q[1..] + rest;
      ScanInside(q[1..], rest, current + [q[0]]);
      assert current + [q[0]] + q[1..] == current + q;
    }
  }

  lemma {:induction false} ScanOutside(p: string, rest: string, current: string)
    requires '\"' !in p && ',' !in p
    ensures Split(p + rest, current, false) == Split(rest, current + p, false)
    decreases |p|
  {
    if p == "" {
      assert p + rest == rest && current + p == current;
    } else {
      assert (p + rest)[0] == p[0] && (p + rest)[1..] == p[1..] + rest;
      ScanOutside(p[1..], rest, current + [p[0]]);
      assert current + [p[0]] + p[1..] == current + p;
    }
  }

  lemma ScanParam(name: string, value: string, rest: string)
    requires '\"' !in name && ',' !in name && '\"' !in value
    ensures Split(Param(name, value) + rest, "", false) == Split(rest, Param(name, value), false)
  {
    var tail := "\"" + rest;
    var inner := "\"" + (value + tail);
    assert Param(name, value) + rest == name + inner;
    ScanOutside(name, inner, "");
    assert "" + name == name;
    ScanInside(value, tail, name + "\"");
  }

  predicate PlainName(name: string) {
    name != "" && '\"' !in name && ',' !in name && !IsSpace(name[0])
  }

  lemma SplitParam(name: string, value: string, rest: string)
    requires PlainName(name) && '\"' !in value
    ensures Split(Param(name, value) + "," + rest, "", false) == [Param(name, value)] + Split(rest, "", false)
    ensures Split(Param(name, value), "", false) == [Param(name, value)]
  {
    ScanParam(name, value, "," + rest);
    assert Param(name, value) + "," + rest == Param(name, value) + ("," + rest);
    assert ("," + rest)[0] == ',' && ("," + rest)[1..] == rest;
    ScanParam(name, value, "");
    assert Param(name, value) + "" == Param(name, value);
  }

  lemma UnquoteParam(name: string, value: string)
    ensures name <= Param(name, value) && Unquote(StripPrefix(Param(name, value), name)) == Some(value)
  {
    var quoted := "\"" + value + "\"";
    assert Param(name, value) == name + quoted;
    TrimIsIdentityIff(quoted);
    assert quoted[1..|quoted| - 1] == value;
  }

  lemma {:induction false} SplitAtSpace(a: string, b: string)
    requires ' ' !in a
    ensures SplitSpaces(a + " " + b) == [a] + SplitSpaces(b)
    ensures SplitSpaces(a) == [a]
  {
    if a == "" {
      assert (a + " " + b)[1..] == b && [a] == [""];
    } else {
      SplitAtSpace(a[1..], b);
      assert (a + " " + b)[1..] == a[1..] + " " + b;
      assert [a[0]] + a[1..] == a && a[0] in a;
    }
  }

  lemma SignedHeadersSplit()
    ensures SplitSpaces(SIGNED_HEADERS) == ["(request-target)", "host", "date"]
  {
    hide SplitSpaces;
    SplitAtSpace("(request-target)", "host" + " " + "date");
    SplitAtSpace("host", "date");
    SplitAtSpace("date", "");
  }

  lemma HeaderSplits(did: string, sig: string)
    requires '\"' !in did && '\"' !in sig
    ensures Split(SignatureHeader(did, sig), "", false)
         == [Param("keyId=", did), Param("algorithm=", "ed25519"),
             Param("headers=", SIGNED_HEADERS), Param("signature=", sig)]
  {
    hide Split;
    var p4 := Param("signature=", sig);
    var p3 := Param("headers=", SIGNED_HEADERS) + "," + p4;
    var p2 := Param("algorithm=", "ed25519") + "," + p3;
    SplitParam("signature=", sig, "");
    SplitParam("headers=", SIGNED_HEADERS, p4);
    SplitParam("algorithm=", "ed25519", p3);
    SplitParam("keyId=", did, p2);
  }

  /** For every DID and signature without a double quote, parsing the header that was built recovers
      the key id, the algorithm, the header list and the signature. */
  lemma HeaderRoundTrips(did: string, sig: string)
    requires '\"' !in did && '\"' !in sig
    ensures Parse(SignatureHeader(did, sig)) == Ok(Parsed(did, "ed25519", ["(request-target)", "host", "date"], sig))
  {
    HeaderSplits(did, sig);
    TakeEach(did, sig);
  }

  lemma TakeEach(did: string, sig: string)
    ensures TakeParams(NoFields, [Param("keyId=", did), Param("algorithm=", "ed25519"),
                                  Param("headers=", SIGNED_HEADERS), Param("signature=", sig)])
         == Ok(Fields(Some(did), Some("ed25519"), Some(["(request-target)", "host", "date"]), Some(sig)))
  {
    var k, a := Param("keyId=", did), Param("algorithm=", "ed25519");
    var h, s := Param("headers=", SIGNED_HEADERS), Param("signature=", sig);
    var f1 := Fields(Some(did), None, None, None);
    var f2 := f1.(algorithm := Some("ed25519"));
    var f3 := f2.(headers := Some(["(request-target)", "host", "date"]));
    TakesParam(NoFields, "keyId=", did);
    TakesParam(f1, "algorithm=", "ed25519");
    TakesParam(f2, "headers=", SIGNED_HEADERS);
    TakesParam(f3, "signature=", sig);
    SignedHeadersSplit();
    assert [k, a, h, s][1..] == [a, h, s] && [a, h, s][1..] == [h, s] && [h, s][1..] == [s];
    assert TakeParams(f3, [s]) == Ok(f3.(signature := Some(sig)));
    assert TakeParams(f2, [h, s]) == TakeParams(f3, [s]);
    assert TakeParams(f1, [a, h, s]) == TakeParams(f2, [h, s]);
  }

  lemma TakesParam(f: Fields, name: string, value: string)
    requires name in {"keyId=", "algorithm=", "headers=", "signature="}
    ensures TakeParam(f, Param(name, value)) == Ok(
              if name == "keyId=" then f.(keyId := Some(value))
              else if name == "algorithm=" then f.(algorithm := Some(value))
              else if name == "headers=" then f.(headers := Some(SplitSpaces(value)))
              else f.(signature := Some(value)))
  {
    UnquoteParam(name, value);
    var p := Param(name, value);
    assert p[0] == name[0];
    assert "keyId="[0] == 'k' && "algorithm="[0] == 'a' && "headers="[0] == 'h' && "signature="[0] == 's';
  }

  // ---------------------------------------------------------------------------
  // The signing string
  // ---------------------------------------------------------------------------

  /** What the verifier sees of a request. Header names are stored in lower case, and looked up whatever
      their case; a value that is not plain text counts as missing. */
  datatype HttpRequest = HttpRequest(verb: string, pathAndQuery: Option<string>, headers: map<string, string>)

  function LowerChar(c: char): char {
    if 'A' <= c <= 'Z' then (c as int + 32) as char else c
  }

  function Lower(s: string): string {
    seq(|s|, i requires 0 <= i < |s| => LowerChar(s[i]))
  }

  /** Lower case: the capital letters become their small ones, and everything else stays. */
  lemma LowerIs(s: string)
    ensures |Lower(s)| == |s|
    ensures forall i :: 0 <= i < |s| ==>
              if exists k :: 0 <= k < 26 && s[i] == CAPITALS[k]
              then exists k :: 0 <= k < 26 && s[i] == CAPITALS[k] && Lower(s)[i] == SMALLS[k]
              else Lower(s)[i] == s[i]
  {
    forall i | 0 <= i < |s| && 'A' <= s[i] <= 'Z'
      ensures exists k :: 0 <= k < 26 && s[i] == CAPITALS[k] && Lower(s)[i] == SMALLS[k]
    {
      LetterAt(s[i] as int - 'A' as int);
    }
    forall k | 0 <= k < 26 ensures 'A' <= CAPITALS[k] <= 'Z' {
      LetterAt(k);
    }
  }

  const CAPITALS: string := "ABCDEFGHIJKLMNOPQRSTUVWXYZ"
  const SMALLS: string := "abcdefghijklmnopqrstuvwxyz"

  lemma LetterAt(k: int)
    requires 0 <= k < 26
    ensures |CAPITALS| == |SMALLS| == 26
    ensures CAPITALS[k] as int == 'A' as int + k && SMALLS[k] as int == 'a' as int + k
  {
  }

  /** Listed names are matched without regard to case. */
  lemma HeaderNamesIgnoreCase(q: HttpRequest, name: string, name': string)
    requires name != "(request-target)" && name' != "(request-target)" && Lower(name) == Lower(name')
    ensures HeaderLine(q, name).Some? <==> HeaderLine(q, name').Some?
    ensures HeaderLine(q, name).Some? ==>
              HeaderLine(q, name).value[|name|..] == HeaderLine(q, name').value[|name'|..]
  {
    assert |Lower(name)| == |name| && |Lower(name')| == |name'|;
    if Lower(name) in q.headers {
      var tail := ": " + q.headers[Lower(name)];
      assert name + ": " + q.headers[Lower(name)] == name + tail;
      assert name' + ": " + q.headers[Lower(name)] == name' + tail;
      assert (name + tail)[|name|..] == tail && (name' + tail)[|name'|..] == tail;
    }
  }

  /** The line for one listed header; none if the request lacks it. */
  function HeaderLine(q: HttpRequest, name: string): Option<string> {
    if name == "(request-target)" then
      Some("(request-target): " + Lower(q.verb) + " " + if q.pathAndQuery.Some? then q.pathAndQuery.value else "/")
    else if Lower(name) in q.headers then Some(name + ": " + q.headers[Lower(name)])
    else None
  }

  function Lines(q: HttpRequest, names: seq<string>): Option<seq<string>> {
    if names == [] then Some([])
    else if HeaderLine(q, names[0]).None? then None
    else Before([HeaderLine(q, names[0]).value], Lines(q, names[1..]))
  }

  function Before(lines: seq<string>, rest: Option<seq<string>>): Option<seq<string>> {
    if rest.None? then None else Some(lines + rest.value)
  }

  lemma BeforeComposes(a: seq<string>, b: seq<string>, rest: Option<seq<string>>)
    ensures Before(a, Before(b, rest)) == Before(a + b, rest)
    ensures Before([], rest) == rest
    ensures Before(a, Some([])) == Some(a)
  {
    assert rest.Some? ==> a + (b + rest.value) == a + b + rest.value && [] + rest.value == rest.value;
    assert a + [] == a;
  }

  function JoinLines(lines: seq<string>): string {
    if lines == [] then "" else if |lines| == 1 then lines[0] else lines[0] + "\n" + JoinLines(lines[1..])
  }

  /** The first listed header the request lacks is reported. */
  method BuildSigningString(q: HttpRequest, names: seq<string>) returns (r: Result<string, string>)
    ensures r.Ok? <==> Lines(q, names).Some?
    ensures r.Ok? ==> r.value == JoinLines(Lines(q, names).value)
    ensures r.Err? ==> exists i :: 0 <= i < |names| && names[i] == r.error && HeaderLine(q, names[i]).None?
                                && forall j :: 0 <= j < i ==> HeaderLine(q, names[j]).Some?
  {
    var lines: seq<string> := [];
    assert names[0..] == names;
    BeforeComposes([], [], Lines(q, names));
    for i := 0 to |names|
      invariant |lines| == i
      invariant forall j :: 0 <= j < i ==> HeaderLine(q, names[j]) == Some(lines[j])
      invariant Lines(q, names) == Before(lines, Lines(q, names[i..]))
    {
      assert names[i..][0] == names[i] && names[i..][1..] == names[i + 1..];
      var line := HeaderLine(q, names[i]);
      if line.None? {
        return Err(names[i]);
      }
      BeforeComposes(lines, [line.value], Lines(q, names[i + 1..]));
      lines := lines + [line.value];
    }
    BeforeComposes(lines, [], None);
    r := Ok(JoinLines(lines));
  }

  /** The verifier rebuilds exactly the string that was signed, when the request arrives with the path,
      host and date it was signed for and a method that is the signed one up to case. No path counts as "/". */
  lemma SigningStringsAgree(q: HttpRequest, verb: string, path: string, host: string, date: string)
    requires Lower(q.verb) == verb && (q.pathAndQuery == Some(path) || (q.pathAndQuery == None && path == "/"))
    requires "host" in q.headers && q.headers["host"] == host && "date" in q.headers && q.headers["date"] == date
    ensures Lines(q, ["(request-target)", "host", "date"]).Some?
    ensures JoinLines(Lines(q, ["(request-target)", "host", "date"]).value) == SigningString(verb, path, host, date)
  {
    var names := ["(request-target)", "host", "date"];
    assert Lower("host") == "host" && Lower("date") == "date";
    assert names[1..] == ["host", "date"] && names[1..][1..] == ["date"];
    var t, h, d := "(request-target): " + verb + " " + path, "host: " + host, "date: " + date;
    assert "host" + ": " == "host: " && "date" + ": " == "date: ";
    BeforeComposes([d], [], None);
    assert ["date"][1..] == [] && Lines(q, []) == Some([]);
    assert Lines(q, ["date"]) == Some([d]);
    assert ["host", "date"][1..] == ["date"];
    assert [h] + [d] == [h, d] && [t] + [h, d] == [t, h, d];
    assert Lines(q, ["host", "date"]) == Some([h, d]);
    assert Lines(q, names) == Some([t, h, d]);
    assert [t, h, d][1..] == [h, d] && [h, d][1..] == [d];
    assert JoinLines([h, d]) == h + "\n" + d;
  }

  /** The signing string determines what was signed: two requests with the same string have the same
      method, path, host and date, provided no newline occurs in the method, path and host and no space
      in the method. */
  lemma SigningStringDetermines(m: string, p: string, h: string, d: string, m': string, p': string, h': string, d': string)
    requires SigningString(m, p, h, d) == SigningString(m', p', h', d')
    requires '\n' !in m && '\n' !in p && '\n' !in h && ' ' !in m
    requires '\n' !in m' && '\n' !in p' && '\n' !in h' && ' ' !in m'
    ensures m == m' && p == p' && h == h' && d == d'
  {
    var t, t' := "(request-target): " + m + " " + p, "(request-target): " + m' + " " + p';
    var r, r' := "host: " + h + "\n" + ("date: " + d), "host: " + h' + "\n" + ("date: " + d');
    CutsAgree(t, r, t', r', '\n');
    CutsAgree("host: " + h, "date: " + d, "host: " + h', "date: " + d', '\n');
    DropPrefix("host: ", h, h');
    DropPrefix("date: ", d, d');
    assert t == "(request-target): " + (m + " " + p) && t' == "(request-target): " + (m' + " " + p');
    DropPrefix("(request-target): ", m + " " + p, m' + " " + p');
    CutsAgree(m, p, m', p', ' ');
  }

  lemma DropPrefix(x: string, a: string, b: string)
    requires x + a == x + b
    ensures a == b
  {
    assert (x + a)[|x|..] == a && (x + b)[|x|..] == b;
  }

  /** End to end: the verifier of an outbound request reads off the sender's DID and the signature, and
      the string it rebuilds from the listed headers is the very string that was signed. */
  lemma OutboundRequestVerifies(
    sign: string -> string, did: string, verb: string, path: string, host: string, date: string, q: HttpRequest)
    requires '\"' !in did && '\"' !in sign(SigningString(verb, path, host, date))
    requires Lower(q.verb) == verb && (q.pathAndQuery == Some(path) || (q.pathAndQuery == None && path == "/"))
    requires "host" in q.headers && q.headers["host"] == host
    requires "date" in q.headers && q.headers["date"] == BuildOutboundSignature(sign, did, verb, path, host, date).0
    ensures var parsed := Parse(BuildOutboundSignature(sign, did, verb, path, host, date).1);
            && parsed.Ok? && parsed.value.keyId == did
            && Lines(q, parsed.value.headers).Some?
            && parsed.value.signature == sign(JoinLines(Lines(q, parsed.value.headers).value))
  {
    HeaderRoundTrips(did, sign(SigningString(verb, path, host, date)));
    SigningStringsAgree(q, verb, path, host, date);
  }
}
