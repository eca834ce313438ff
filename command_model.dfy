/** What the slash commands of all three versions share: the persisted configuration, the
    replies, and the ordered effects (a save, a reply) a command makes observable. */
module CommandModel {

  import opened Wrappers
  import opened Embeds
  import opened AtCoderTypes

  /** The configuration of src/main.rs and src/commands.rs: a channel and the user set. */
  datatype BasicConfig = BasicConfig(channel: Option<ChannelId>, users: set<string>)

  /** The configuration of src/functions/commands.rs, which adds the followed contest kinds
      and the role to mention. */
  datatype Config = Config(channel: Option<ChannelId>, users: set<string>, contestKind: set<ContestKind>, mention: Option<RoleId>)

  /** What a command replies, without its wording or mention rendering. */
  datatype Reply =
    | ChannelSet(channel: ChannelId)
    | UsersRegistered(users: seq<string>)
    | UserUnregistered(user: string)
    | RegisteredList(users: seq<string>)
    | NotificationEnabled(kind: ContestKind)
    | NotificationDisabled(kind: ContestKind)
    | MentionSet(role: Option<RoleId>)

  /** A command's observable steps, in order: the snapshot written to config.json, or a
      reply sent to the invoking channel. */
  datatype Effect<S> = Saved(state: S) | Replied(reply: Reply)

  /** Which `?` ended a command early. */
  datatype CommandError = SaveFailed | ReplyFailed

  /** The order of the later commands: the change, then `save`, then the reply; a failed
      save skips the reply, a failed reply leaves the save in place. */
  function SaveThenReply<S>(state: S, reply: Reply, saveOk: bool, replyOk: bool): (es: seq<Effect<S>>)
    ensures |es| <= 2
    ensures saveOk <==> es != [] && es[0] == Saved(state)
    ensures Replied(reply) in es <==> saveOk && replyOk
  {
    if !saveOk then [] else if !replyOk then [Saved(state)] else [Saved(state), Replied(reply)]
  }

  function SaveThenReplyOutcome(saveOk: bool, replyOk: bool): Outcome<CommandError> {
    if !saveOk then Fail(SaveFailed) else if !replyOk then Fail(ReplyFailed) else Pass
  }
}
