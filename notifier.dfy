/** The best-effort announcement of a stored digest to a chat webhook. The
    URL comes from the `DISCORD_WEBHOOK` environment variable; the HTTP
    exchange is reduced to its outcome. */
module Notifier {
  import opened Wrappers

  /** The text placed in front of the digest in the posted message. */
  const DigestHeading: string := "Daily Digest: "

  /** What the HTTP client reports for one POST: a response with its
      status code, or a transport error with no response. */
  datatype SendOutcome = Responded(status: int) | TransportError

  /** The success class of HTTP status codes, 200 to 299. */
  predicate IsSuccess(status: int)
  {
    200 <= status < 300
  }

  /** What the notifier did: nothing (no URL configured), a POST that was
      answered (accepted or not), or a POST that failed in transport. */
  datatype Notice =
    | WebhookUnset
    | Answered(url: string, content: string, accepted: bool)
    | SendFailed(url: string, content: string)

  /** The `content` field of the posted JSON body for a digest text: the
      heading followed by the digest, unchanged. */
  function Payload(digest: string): (content: string)
    ensures |content| == |DigestHeading| + |digest|
    ensures content[..|DigestHeading|] == DigestHeading
    ensures content[|DigestHeading|..] == digest
  {
    DigestHeading + digest
  }

  /** Different digests give different messages: the posted content
      determines the digest. */
  lemma PayloadInjective(a: string, b: string)
    requires Payload(a) == Payload(b)
    ensures a == b
  {
    assert a == Payload(a)[|DigestHeading|..];
  }

  /** Announces a digest: posts only when a URL is configured, always with
      the digest's payload, and records how the POST ended. */
  function Notify(webhook: Option<string>, send: SendOutcome, digest: string): (n: Notice)
    ensures n.WebhookUnset? <==> webhook.None?
    ensures webhook.Some? ==> n.url == webhook.value && n.content == Payload(digest)
    ensures n.Answered? <==> webhook.Some? && send.Responded?
    ensures n.Answered? ==> (n.accepted <==> IsSuccess(send.status))
  {
    match webhook
    case None => WebhookUnset
    case Some(url) =>
      match send
      case Responded(status) => Answered(url, Payload(digest), IsSuccess(status))
      case TransportError => SendFailed(url, Payload(digest))
  }
}
