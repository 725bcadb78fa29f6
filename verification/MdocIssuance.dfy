/** The validity window an issuer gives an mdoc, and when there is one. */
module MdocIssuance {
  import opened Wrappers
  import opened Cose
  import opened Mdoc
  import Jws

  const DAY: int := 86_400 * NANOS
  const MSO_VALIDITY_DAYS: int := 365

  /** Midnight UTC at the start of the day. */
  function StartOfDay(at: int): int {
    at / DAY * DAY
  }

  /** Midnight of the day the MSO ends: a year from today, or the day the signer's certificate ends. */
  function Until(now: int, certificateEnd: int): int {
    var yearOn := StartOfDay(now) + MSO_VALIDITY_DAYS * DAY;
    StartOfDay(if yearOn < certificateEnd then yearOn else certificateEnd)
  }

  /** The mdoc issued for a holder key: signed and valid from midnight today. */
  function MdocRequest(docType: string, namespaces: seq<Namespace>, holder: Jws.Jwk, now: int, certificateEnd: int,
                       status: Option<StatusRef>, certificate: ByteString): IssueRequest {
    IssueRequest(docType, namespaces, holder, StartOfDay(now), StartOfDay(now), Until(now, certificateEnd), status,
                 [certificate])
  }

  lemma DayIsWhole(at: int)
    ensures WholeSeconds(StartOfDay(at)) == StartOfDay(at)
  {
  }

  /** The window is in whole days and is not empty iff the certificate outlasts today; then it holds the
      moment of issuance. It ends at the last midnight that is neither after the certificate's end nor
      more than a year on. */
  lemma Window(now: int, certificateEnd: int)
    ensures var today, until := StartOfDay(now), Until(now, certificateEnd);
            && today % DAY == 0 && today <= now < today + DAY
            && until % DAY == 0 && until <= certificateEnd && until <= today + 365 * DAY
            && (until + DAY > certificateEnd || until == today + 365 * DAY)
            && (today < until <==> today + DAY <= certificateEnd)
            && (today < until ==> today <= now < until)
  {
  }

  /** The mdoc can be issued iff the certificate outlasts today and the holder key has a COSE form. */
  lemma IssuableIff(docType: string, namespaces: seq<Namespace>, holder: Jws.Jwk, now: int, certificateEnd: int,
                    status: Option<StatusRef>, certificate: ByteString)
    ensures var req := MdocRequest(docType, namespaces, holder, now, certificateEnd, status, certificate);
            && Period(req) == ValidityInfo(StartOfDay(now), StartOfDay(now), Until(now, certificateEnd))
            && (Issuable(req) <==> StartOfDay(now) + DAY <= certificateEnd && CoseKey(holder).Some?)
  {
    hide StartOfDay, WholeSeconds, CoseKey;
    DayIsWhole(now);
    var yearOn := StartOfDay(now) + MSO_VALIDITY_DAYS * DAY;
    DayIsWhole(if yearOn < certificateEnd then yearOn else certificateEnd);
    Window(now, certificateEnd);
  }
}
