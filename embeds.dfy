/** Discord messages as plain records: embeds with a title, a link, fields and an accent
    colour, and the per-problem detail each embed field is rendered from. */
module Embeds {

  import opened Wrappers
  import opened Rating

  /** Discord snowflake ids. */
  type ChannelId = nat
  type RoleId = nat

  /** One accepted submission, as the digest reports it. */
  datatype ProblemDetail = ProblemDetail(title: string, difficulty: Option<I64>, language: string, submissionUrl: string)

  /** An embed field `(name, value, inline)`. */
  datatype Field = Field(name: string, value: string, inline: bool)

  datatype Embed = Embed(title: Option<string>, url: Option<string>, fields: seq<Field>, color: int)

  /** A message sent to the channel: plain text, or a list of embeds. */
  datatype Message = Text(content: string) | Embeds(embeds: seq<Embed>)

  /** Why a digest is not delivered: `context("Channel not set")` when no channel is
      configured, or a failed HTTP request or JSON decode (each `?` after `http_get`). */
  datatype DigestError = ChannelNotSet | Upstream

  /** Shown instead of a rating when no problem model is known. */
  const Unknown := "不明"

  /** "Nobody got an AC yesterday.", sent when a digest has no embed at all. */
  const Fallback := "昨日は誰もACしませんでした。"

  /** The field value `"{rating} | {language} | [提出]({url})"`. */
  function FieldBody(rating: string, language: string, url: string): string {
    rating + (" | " + language + " | [提出](" + url + ")")
  }

  /** The embeds a list of messages carries, in order. */
  function EmbedsOf(msgs: seq<Message>): seq<Embed>
    decreases |msgs|
  {
    if msgs == [] then []
    else (match msgs[0] case Text(_) => [] case Embeds(es) => es) + EmbedsOf(msgs[1..])
  }

  /** The fields of a list of embeds, in order. */
  function FieldsOf(es: seq<Embed>): seq<Field>
    decreases |es|
  {
    if es == [] then [] else es[0].fields + FieldsOf(es[1..])
  }

  /** The delivery of src/notify.rs and src/main.rs: the fallback text when there is no
      embed, otherwise every embed in one single message. */
  function OneMessage(embeds: seq<Embed>): (r: seq<Message>)
    ensures |r| == 1
    ensures embeds == [] <==> r == [Text(Fallback)]
    ensures EmbedsOf(r) == embeds
  {
    if embeds == [] then [Text(Fallback)] else [Embeds(embeds)]
  }
}
