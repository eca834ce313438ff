/** The slash commands of src/functions/commands.rs over the shared state: each one changes
    its own part of the configuration, saves it, then replies. */
module ConfigCommands {

  import opened Wrappers
  import opened Embeds
  import opened AtCoderTypes
  import opened UserNames
  import opened CommandModel

  /** The state changes the commands make. */
  datatype Change =
    | SetChannel(id: ChannelId)
    | AddUsers(input: string)
    | RemoveUser(user: string)
    | Enable(kind: ContestKind)
    | Disable(kind: ContestKind)
    | SetMention(role: Option<RoleId>)

  /** The configuration after a change; every other part stays as it was. */
  function Apply(c: Config, ch: Change): (r: Config)
    ensures ch.SetChannel? ==> r == c.(channel := Some(ch.id))
    ensures ch.AddUsers? ==> r == c.(users := r.users)
    ensures ch.AddUsers? ==> forall u :: u in r.users <==> u in c.users || u in Pieces(ch.input)
    ensures ch.RemoveUser? ==> r == c.(users := r.users)
    ensures ch.RemoveUser? ==> forall u :: u in r.users <==> u in c.users && u != ch.user
    ensures ch.Enable? ==> r == c.(contestKind := r.contestKind) && ch.kind in r.contestKind
    ensures ch.Disable? ==> r == c.(contestKind := r.contestKind) && ch.kind !in r.contestKind
    ensures (ch.Enable? || ch.Disable?) ==> forall k :: k != ch.kind ==> (k in r.contestKind <==> k in c.contestKind)
    ensures ch.SetMention? ==> r == c.(mention := ch.role)
  {
    match ch
    case SetChannel(id) => c.(channel := Some(id))
    case AddUsers(input) => c.(users := Register(c.users, input))
    case RemoveUser(user) => c.(users := Unregister(c.users, user))
    case Enable(kind) => c.(contestKind := c.contestKind + {kind})
    case Disable(kind) => c.(contestKind := c.contestKind - {kind})
    case SetMention(role) => c.(mention := role)
  }

  /** Every change is idempotent: issuing a command twice is the same as once. */
  lemma ApplyIdempotent(c: Config, ch: Change)
    ensures Apply(Apply(c, ch), ch) == Apply(c, ch)
  {
    if ch.AddUsers? {
      RegisterIdempotent(c.users, ch.input);
    }
  }

  /** Disabling undoes enabling a kind that was not followed, and enabling undoes disabling
      one that was. */
  lemma EnableDisableInverse(c: Config, k: ContestKind)
    ensures k !in c.contestKind ==> Apply(Apply(c, Enable(k)), Disable(k)) == c
    ensures k in c.contestKind ==> Apply(Apply(c, Disable(k)), Enable(k)) == c
  {
    if k !in c.contestKind {
      assert c.contestKind + {k} - {k} == c.contestKind;
    } else {
      assert c.contestKind - {k} + {k} == c.contestKind;
    }
  }

  /** Unregistering a name that was never registered changes nothing; unregistering a
      name just registered removes only that name. */
  lemma UnregisterAfterRegister(c: Config, input: string, user: string)
    ensures user !in c.users ==> Apply(c, RemoveUser(user)) == c
    ensures var r := Apply(Apply(c, AddUsers(input)), RemoveUser(user));
      forall u :: u in r.users <==> u != user && (u in c.users || u in Pieces(input))
  {
  }

  /** The reply a change sends once saved. */
  function ReplyOf(ch: Change): Reply {
    match ch
    case SetChannel(id) => ChannelSet(id)
    case AddUsers(input) => UsersRegistered(Pieces(input))
    case RemoveUser(user) => UserUnregistered(user)
    case Enable(kind) => NotificationEnabled(kind)
    case Disable(kind) => NotificationDisabled(kind)
    case SetMention(role) => MentionSet(role)
  }

  /** `channel`: the given channel, else the invoking one. */
  function ChannelTarget(given: Option<ChannelId>, invoking: ChannelId): (id: ChannelId)
    ensures given.Some? ==> id == given.value
    ensures given.None? ==> id == invoking
  {
    given.GetOr(invoking)
  }

  /** The shared state (`Mutex` fields as plain fields). */
  class Data {
    var channel: Option<ChannelId>
    var users: set<string>
    var contestKind: set<ContestKind>
    var mention: Option<RoleId>
    var effects: seq<Effect<Config>>

    function State(): Config
      reads this
    {
      Config(channel, users, contestKind, mention)
    }

    constructor ()
      ensures State() == Config(None, {}, {}, None) && effects == []
    {
      channel, users, contestKind, mention := None, {}, {}, None;
      effects := [];
    }

    /** One command: change the state inside the lock block, `save(...)?`, then
        `ctx.reply(...).await?`. The in-memory change stays even when the save fails. */
    method Run(ch: Change, saveOk: bool, replyOk: bool) returns (r: Outcome<CommandError>)
      modifies this
      ensures State() == Apply(old(State()), ch)
      ensures effects == old(effects) + SaveThenReply(State(), ReplyOf(ch), saveOk, replyOk)
      ensures r == SaveThenReplyOutcome(saveOk, replyOk)
    {
      match ch {
        case SetChannel(id) => channel := Some(id);
        case AddUsers(input) => users := UserNames.Register(users, input);
        case RemoveUser(user) => users := UserNames.Unregister(users, user);
        case Enable(kind) => contestKind := contestKind + {kind};
        case Disable(kind) => contestKind := contestKind - {kind};
        case SetMention(role) => mention := role;
      }
      if !saveOk {
        return Fail(SaveFailed);
      }
      effects := effects + [Saved(State())];
      if !replyOk {
        return Fail(ReplyFailed);
      }
      effects := effects + [Replied(ReplyOf(ch))];
      return Pass;
    }

    /** `channel`. */
    method Channel(given: Option<ChannelId>, invoking: ChannelId, saveOk: bool, replyOk: bool) returns (r: Outcome<CommandError>)
      modifies this
      ensures State() == old(State()).(channel := Some(ChannelTarget(given, invoking)))
      ensures effects == old(effects) + SaveThenReply(State(), ChannelSet(ChannelTarget(given, invoking)), saveOk, replyOk)
      ensures r == SaveThenReplyOutcome(saveOk, replyOk)
    {
      r := Run(SetChannel(ChannelTarget(given, invoking)), saveOk, replyOk);
    }

    /** `register`. */
    method Register(input: string, saveOk: bool, replyOk: bool) returns (r: Outcome<CommandError>)
      modifies this
      ensures State() == old(State()).(users := UserNames.Register(old(users), input))
      ensures effects == old(effects) + SaveThenReply(State(), UsersRegistered(Pieces(input)), saveOk, replyOk)
      ensures r == SaveThenReplyOutcome(saveOk, replyOk)
    {
      r := Run(AddUsers(input), saveOk, replyOk);
    }

    /** `unregister`. */
    method Unregister(user: string, saveOk: bool, replyOk: bool) returns (r: Outcome<CommandError>)
      modifies this
      ensures State() == old(State()).(users := UserNames.Unregister(old(users), user))
      ensures effects == old(effects) + SaveThenReply(State(), UserUnregistered(user), saveOk, replyOk)
      ensures r == SaveThenReplyOutcome(saveOk, replyOk)
    {
      r := Run(RemoveUser(user), saveOk, replyOk);
    }

    /** `enable_contest_notification`. */
    method EnableContestNotification(kind: ContestKind, saveOk: bool, replyOk: bool) returns (r: Outcome<CommandError>)
      modifies this
      ensures State() == old(State()).(contestKind := old(contestKind) + {kind})
      ensures effects == old(effects) + SaveThenReply(State(), NotificationEnabled(kind), saveOk, replyOk)
      ensures r == SaveThenReplyOutcome(saveOk, replyOk)
    {
      r := Run(Enable(kind), saveOk, replyOk);
    }

    /** `disable_contest_notification`. */
    method DisableContestNotification(kind: ContestKind, saveOk: bool, replyOk: bool) returns (r: Outcome<CommandError>)
      modifies this
      ensures State() == old(State()).(contestKind := old(contestKind) - {kind})
      ensures effects == old(effects) + SaveThenReply(State(), NotificationDisabled(kind), saveOk, replyOk)
      ensures r == SaveThenReplyOutcome(saveOk, replyOk)
    {
      r := Run(Disable(kind), saveOk, replyOk);
    }

    /** `set_mention`: `None` clears the role. */
    method SetMentionRole(role: Option<RoleId>, saveOk: bool, replyOk: bool) returns (r: Outcome<CommandError>)
      modifies this
      ensures State() == old(State()).(mention := role)
      ensures effects == old(effects) + SaveThenReply(State(), MentionSet(role), saveOk, replyOk)
      ensures r == SaveThenReplyOutcome(saveOk, replyOk)
    {
      r := Run(SetMention(role), saveOk, replyOk);
    }

    /** `registerlist`: every user once, in the set's iteration order; nothing changes. */
    method RegisterList(replyOk: bool) returns (r: Outcome<CommandError>, listed: seq<string>)
      modifies this
      ensures State() == old(State())
      ensures |listed| == |users| && forall u :: u in listed <==> u in users
      ensures effects == old(effects) + if replyOk then [Replied(RegisteredList(listed))] else []
      ensures r == if replyOk then Pass else Fail(ReplyFailed)
    {
      listed := Enumerate(users);
      if !replyOk {
        return Fail(ReplyFailed), listed;
      }
      effects := effects + [Replied(RegisteredList(listed))];
      return Pass, listed;
    }
  }
}
