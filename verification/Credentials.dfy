/** The compact form of an SD-JWT VC: `<jwt>~<disclosure>~...~<kb-jwt>`. */
module Credentials {
  import opened Wrappers
  import opened Text

  datatype SdJwtVc = SdJwtVc(issuerJwt: string, disclosures: seq<string>, keyBindingJwt: Option<string>)

  datatype SdJwtParseError = MissingIssuerJwt

  const SEPARATOR: char := '~'

  /** A key binding JWT has three dot-separated parts. */
  predicate LooksLikeJwt(part: string) {
    Count(part, '.') == 2
  }

  // ---- Parsing ----------------------------------------------------------------

  /** The parts that are disclosures: neither empty nor a trailing JWT. */
  function DisclosureParts(parts: seq<string>): seq<string> {
    if parts == [] then []
    else if parts[0] == "" || (|parts| == 1 && LooksLikeJwt(parts[0])) then DisclosureParts(parts[1..])
    else [parts[0]] + DisclosureParts(parts[1..])
  }

  function TrailingJwt(parts: seq<string>): Option<string>
    requires |parts| > 0
  {
    if |parts| > 1 && LooksLikeJwt(parts[|parts| - 1]) then Some(parts[|parts| - 1]) else None
  }

  function Parsed(compact: string): Result<SdJwtVc, SdJwtParseError> {
    var parts := Split(compact, SEPARATOR);
    if parts[0] == "" then Err(MissingIssuerJwt)
    else Ok(SdJwtVc(parts[0], DisclosureParts(parts[1..]), TrailingJwt(parts)))
  }

  method Parse(compact: string) returns (r: Result<SdJwtVc, SdJwtParseError>)
    ensures r == Parsed(compact)
  {
    var parts := Split(compact, SEPARATOR);
    var issuerJwt := parts[0];
    if issuerJwt == "" {
      return Err(MissingIssuerJwt);
    }
    var disclosures: seq<string> := [];
    var keyBindingJwt := None;
    for i := 1 to |parts|
      invariant disclosures + DisclosureParts(parts[i..]) == DisclosureParts(parts[1..])
      invariant keyBindingJwt == if i == |parts| then TrailingJwt(parts) else None
    {
      var part := parts[i];
      assert parts[i..][1..] == parts[i + 1..];
      if part == "" {
        continue;
      }
      if i == |parts| - 1 && LooksLikeJwt(part) {
        keyBindingJwt := Some(part);
      } else {
        disclosures := disclosures + [part];
      }
    }
    assert parts[|parts|..] == [] && disclosures == disclosures + [];
    r := Ok(SdJwtVc(issuerJwt, disclosures, keyBindingJwt));
  }

  // ---- Printing ---------------------------------------------------------------

  function Parts(x: SdJwtVc): (parts: seq<string>)
    ensures |parts| == |x.disclosures| + 2
  {
    [x.issuerJwt] + x.disclosures + [if x.keyBindingJwt.Some? then x.keyBindingJwt.value else ""]
  }

  function Compact(x: SdJwtVc): string {
    Join(Parts(x), SEPARATOR)
  }

  method ToCompact(x: SdJwtVc) returns (compact: string)
    ensures compact == Compact(x)
  {
    var parts := [x.issuerJwt];
    for i := 0 to |x.disclosures|
      invariant parts == [x.issuerJwt] + x.disclosures[..i]
    {
      parts := parts + [x.disclosures[i]];
    }
    assert x.disclosures[..|x.disclosures|] == x.disclosures;
    match x.keyBindingJwt {
      case Some(kb) => parts := parts + [kb];
      case None => parts := parts + [""];
    }
    compact := Join(parts, SEPARATOR);
  }

  // ---- Round trips --------------------------------------------------------------

  ghost predicate Carried(part: string) {
    part != "" && Free(part, SEPARATOR)
  }

  /** What the compact form can carry without loss. */
  ghost predicate WellFormed(x: SdJwtVc) {
    && Carried(x.issuerJwt)
    && (forall i :: 0 <= i < |x.disclosures| ==> Carried(x.disclosures[i]))
    && (x.keyBindingJwt.Some? ==> LooksLikeJwt(x.keyBindingJwt.value) && Free(x.keyBindingJwt.value, SEPARATOR))
  }

  lemma {:induction false} DisclosuresBeforeLast(ds: seq<string>, last: string)
    requires last == "" || LooksLikeJwt(last)
    requires forall i :: 0 <= i < |ds| ==> ds[i] != ""
    ensures DisclosureParts(ds + [last]) == ds
  {
    if ds != [] {
      assert (ds + [last])[1..] == ds[1..] + [last];
      DisclosuresBeforeLast(ds[1..], last);
    }
  }

  lemma ParseCompact(x: SdJwtVc)
    requires WellFormed(x)
    ensures Split(Compact(x), SEPARATOR) == Parts(x)
    ensures Parsed(Compact(x)) == Ok(x)
  {
    var parts := Parts(x);
    SplitJoined(parts, SEPARATOR);
    assert parts[1..] == x.disclosures + [parts[|parts| - 1]];
    DisclosuresBeforeLast(x.disclosures, parts[|parts| - 1]);
  }

  lemma {:induction false} DisclosurePartsShape(parts: seq<string>)
    requires AllFree(parts, SEPARATOR)
    ensures forall i :: 0 <= i < |DisclosureParts(parts)| ==> Carried(DisclosureParts(parts)[i])
  {
    if parts != [] {
      assert Free(parts[0], SEPARATOR);
      forall i | 0 <= i < |parts[1..]| ensures Free(parts[1..][i], SEPARATOR) {
        assert Free(parts[i + 1], SEPARATOR);
      }
      DisclosurePartsShape(parts[1..]);
    }
  }

  /** Whatever parses is well formed. */
  lemma ParsedWellFormed(compact: string)
    requires Parsed(compact).Ok?
    ensures WellFormed(Parsed(compact).value)
  {
    var parts := Split(compact, SEPARATOR);
    SplitParts(compact, SEPARATOR);
    assert Free(parts[0], SEPARATOR) && Free(parts[|parts| - 1], SEPARATOR);
    forall i | 0 <= i < |parts[1..]| ensures Free(parts[1..][i], SEPARATOR) {
      assert Free(parts[i + 1], SEPARATOR);
    }
    DisclosurePartsShape(parts[1..]);
  }

  /** Printing then parsing is the identity exactly on the well-formed values. */
  lemma RoundTrip(x: SdJwtVc)
    ensures Parsed(Compact(x)) == Ok(x) <==> WellFormed(x)
  {
    if WellFormed(x) {
      ParseCompact(x);
    }
    if Parsed(Compact(x)) == Ok(x) {
      ParsedWellFormed(Compact(x));
    }
  }

  /** Parsing, printing and parsing again gives the first parse, on every accepted string. */
  lemma Reparse(compact: string)
    requires Parsed(compact).Ok?
    ensures Parsed(Compact(Parsed(compact).value)) == Parsed(compact)
  {
    ParsedWellFormed(compact);
    ParseCompact(Parsed(compact).value);
  }

  /** Strings with no empty disclosure that end in `~` or in a JWT. */
  ghost predicate Canonical(compact: string) {
    var parts := Split(compact, SEPARATOR);
    && parts[0] != "" && |parts| >= 2
    && (forall i :: 1 <= i < |parts| - 1 ==> parts[i] != "")
    && (parts[|parts| - 1] == "" || LooksLikeJwt(parts[|parts| - 1]))
  }

  /** Parsing then printing is the identity exactly on the canonical strings. */
  lemma Reprint(compact: string)
    requires Parsed(compact).Ok?
    ensures Compact(Parsed(compact).value) == compact <==> Canonical(compact)
  {
    var parts := Split(compact, SEPARATOR);
    var x := Parsed(compact).value;
    SplitParts(compact, SEPARATOR);
    if Canonical(compact) {
      var last := parts[|parts| - 1];
      var ds := parts[1..|parts| - 1];
      assert parts[1..] == ds + [last];
      DisclosuresBeforeLast(ds, last);
      assert parts == [parts[0]] + ds + [last];
      if last == "" {
        assert !LooksLikeJwt("");
      }
      assert Parts(x) == parts;
    }
    if Compact(x) == compact {
      ParsedWellFormed(compact);
      ParseCompact(x);
      assert parts == Parts(x);
    }
  }

  /** The key binding JWT of a text is its last part, iff that is a part of its own and has itself exactly
      three parts between dots. */
  lemma TrailingJwtIff(compact: string, kb: string)
    requires Parsed(compact).Ok?
    ensures var parts := Split(compact, SEPARATOR);
            Parsed(compact).value.keyBindingJwt == Some(kb)
            <==> |parts| > 1 && kb == parts[|parts| - 1] && |Split(kb, '.')| == 3
  {
    hide Split, Count;
    SplitCount(kb, '.');
  }
}
