/** The slash commands of src/commands.rs: the notify-era state (channel and users only),
    where every change is saved before the reply is sent. */
module Commands {

  import opened Wrappers
  import opened Embeds
  import opened UserNames
  import opened CommandModel

  /** The shared state (`Mutex` fields as plain fields). */
  class Data {
    var channel: Option<ChannelId>
    var users: set<string>
    var effects: seq<Effect<BasicConfig>>

    function State(): BasicConfig
      reads this
    {
      BasicConfig(channel, users)
    }

    constructor ()
      ensures State() == BasicConfig(None, {}) && effects == []
    {
      channel := None;
      users := {};
      effects := [];
    }

    /** `channel`: always the invoking channel. */
    method Channel(invoking: ChannelId, saveOk: bool, replyOk: bool) returns (r: Outcome<CommandError>)
      modifies this
      ensures State() == BasicConfig(Some(invoking), old(users))
      ensures effects == old(effects) + SaveThenReply(State(), ChannelSet(invoking), saveOk, replyOk)
      ensures r == SaveThenReplyOutcome(saveOk, replyOk)
    {
      channel := Some(invoking);
      if !saveOk {
        return Fail(SaveFailed);
      }
      effects := effects + [Saved(State())];
      if !replyOk {
        return Fail(ReplyFailed);
      }
      effects := effects + [Replied(ChannelSet(invoking))];
      return Pass;
    }

    /** `register`: union the trimmed pieces into the set, save, then reply with the pieces. */
    method Register(input: string, saveOk: bool, replyOk: bool) returns (r: Outcome<CommandError>)
      modifies this
      ensures State() == BasicConfig(old(channel), UserNames.Register(old(users), input))
      ensures old(users) <= users
      ensures effects == old(effects) + SaveThenReply(State(), UsersRegistered(Pieces(input)), saveOk, replyOk)
      ensures r == SaveThenReplyOutcome(saveOk, replyOk)
    {
      var pieces := Pieces(input);
      users := UserNames.Register(users, input);
      if !saveOk {
        return Fail(SaveFailed);
      }
      effects := effects + [Saved(State())];
      if !replyOk {
        return Fail(ReplyFailed);
      }
      effects := effects + [Replied(UsersRegistered(pieces))];
      return Pass;
    }

    /** `unregister`: remove exactly `user`, save, then reply. */
    method Unregister(user: string, saveOk: bool, replyOk: bool) returns (r: Outcome<CommandError>)
      modifies this
      ensures State() == BasicConfig(old(channel), UserNames.Unregister(old(users), user))
      ensures effects == old(effects) + SaveThenReply(State(), UserUnregistered(user), saveOk, replyOk)
      ensures r == SaveThenReplyOutcome(saveOk, replyOk)
    {
      users := UserNames.Unregister(users, user);
      if !saveOk {
        return Fail(SaveFailed);
      }
      effects := effects + [Saved(State())];
      if !replyOk {
        return Fail(ReplyFailed);
      }
      effects := effects + [Replied(UserUnregistered(user))];
      return Pass;
    }

    /** `registerlist`: every user once, in the set's iteration order; nothing changes. */
    method RegisterList(replyOk: bool) returns (r: Outcome<CommandError>, listed: seq<string>)
      modifies this
      ensures State() == old(State())
      ensures |listed| == |users| && forall u :: u in listed <==> u in users
      ensures effects == old(effects) + if replyOk then [Replied(RegisteredList(listed))] else []
      ensures r == if replyOk then Pass else Fail(ReplyFailed)
    {
      listed := Enumerate(users);
      if !replyOk {
        return Fail(ReplyFailed), listed;
      }
      effects := effects + [Replied(RegisteredList(listed))];
      return Pass, listed;
    }
  }
}
