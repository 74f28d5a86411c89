/**
 Requests and restarts as they arrive: the running server refines the model of memory and tables step by step, and so
 over whole runs, whatever is asked of it.
 */
module Dispatch {
  import opened Permissions
  import opened CommunityModel
  import opened Database
  import opened LiveServer
  import opened StoreAgreement
  import opened Server
  import opened Hosting

  /** The server's memory and tables. */
  ghost function LiveOf(s: CommunityServer): Live
    reads s
  {
    Live(s.View(), s.db)
  }

  predicate IsRoleRequest(r: Request) {
    r.EditRole? || r.DeleteRole? || r.AssignRole? || r.UnassignRole? || r.GetRoles?
  }

  predicate IsModeration(r: Request) {
    r.Kick? || r.Ban_? || r.Unban? || r.GetBanList? || r.TimeoutMember? || r.RemoveTimeout? || r.RotateMek?
  }

  predicate IsChannelRequest(r: Request) {
    r.CreateChannel? || r.DeleteChannel? || r.RenameChannel? || r.SetOverwrite? || r.DeleteOverwrite?
  }

  method HandleRoleRequest(s: CommunityServer, sender: Pseudonym, request: Request, now: nat, ghost freshId: ChannelId,
                           ghost freshKey: Key) returns (r: Response)
    requires s.Valid() && IsRoleRequest(request)
    modifies s
    ensures var c := old(s.View());
      var (effect, answer) := Decide(c, sender, request, now, freshId, freshKey);
      r == answer && s.Performed(c, old(s.db), effect)
  {
    hide DoEditRole, DoDeleteRole, DoAssignRole, DoUnassignRole,
      CommunityServer.Valid, CommunityServer.View, CommunityServer.Performed;
    match request {
      case EditRole(id, edit) => r := s.HandleEditRole(sender, id, edit, now);
      case DeleteRole(id) => r := s.HandleDeleteRole(sender, id, now);
      case AssignRole(target, id) => r := s.HandleAssignRole(sender, target, id, now);
      case UnassignRole(target, id) => r := s.HandleUnassignRole(sender, target, id, now);
      case GetRoles => r := s.HandleGetRoles(sender);
    }
  }

  method HandleModeration(s: CommunityServer, sender: Pseudonym, request: Request, now: nat, ghost freshId: ChannelId,
                          freshKey: Key) returns (r: Response)
    requires s.Valid() && IsModeration(request)
    modifies s
    ensures var c := old(s.View());
      var (effect, answer) := Decide(c, sender, request, now, freshId, freshKey);
      r == answer && s.Performed(c, old(s.db), effect)
  {
    hide DoKick, DoBan, DoUnban, DoRotate, DoTimeout, DoRemoveTimeout, Cleared,
      CommunityServer.Valid, CommunityServer.View, CommunityServer.Performed;
    match request {
      case Kick(target) => r := s.HandleKick(sender, target, now, freshKey);
      case Ban_(target) => r := s.HandleBan(sender, target, now, freshKey);
      case Unban(target) => r := s.HandleUnban(sender, target, now);
      case GetBanList => r := s.HandleGetBanList(sender, now);
      case RotateMek => r := s.HandleRotateMek(sender, now, freshKey);
      case TimeoutMember(target, duration) => r := s.HandleTimeoutMember(sender, target, duration, now);
      case RemoveTimeout(target) => r := s.HandleRemoveTimeout(sender, target, now);
    }
  }

  method HandleChannelRequest(s: CommunityServer, sender: Pseudonym, request: Request, now: nat, freshId: ChannelId,
                              ghost freshKey: Key) returns (r: Response)
    requires s.Valid() && IsChannelRequest(request)
    modifies s
    ensures var c := old(s.View());
      var (effect, answer) := Decide(c, sender, request, now, freshId, freshKey);
      r == answer && s.Performed(c, old(s.db), effect)
  {
    hide DoCreateChannel, DoDeleteChannel, DoRenameChannel, DoSetOverwrite, DoDeleteOverwrite,
      CommunityServer.Valid, CommunityServer.View, CommunityServer.Performed;
    match request {
      case CreateChannel(name, kind) => r := s.HandleCreateChannel(sender, name, kind, now, freshId);
      case DeleteChannel(channel) => r := s.HandleDeleteChannel(sender, channel, now);
      case RenameChannel(channel, name) => r := s.HandleRenameChannel(sender, channel, name, now);
      case SetOverwrite(channel, targetType, targetId, overwrite) =>
        r := s.HandleSetOverwrite(sender, channel, targetType, targetId, overwrite, now);
      case DeleteOverwrite(channel, targetType, targetId) =>
        r := s.HandleDeleteOverwrite(sender, channel, targetType, targetId, now);
    }
  }

  /** One request: the model's answer, the model's next community, and the statements of its effect. */
  method HandleRequest(s: CommunityServer, sender: Pseudonym, request: Request, now: nat, freshId: ChannelId,
                       freshKey: Key) returns (r: Response)
    requires s.Valid()
    modifies s
    ensures var c := old(s.View());
      var (effect, answer) := Resolve(old(LiveOf(s)), Call(sender, request, now, freshId, freshKey));
      r == answer && s.Performed(c, old(s.db), effect)
  {
    if request.CreateRole? {
      hide DoCreateRole, CommunityServer.Valid, CommunityServer.View, CommunityServer.Performed;
      r := s.HandleCreateRole(sender, request.name, request.color, request.permissions, request.hoist,
                              request.mentionable, now);
    } else {
      hide Resolve, Decide, CommunityServer.Valid, CommunityServer.View, CommunityServer.Performed;
      OnlyRolesAreRefused(LiveOf(s), Call(sender, request, now, freshId, freshKey));
      r := HandleOther(s, sender, request, now, freshId, freshKey);
    }
  }

  method HandleOther(s: CommunityServer, sender: Pseudonym, request: Request, now: nat, freshId: ChannelId,
                     freshKey: Key) returns (r: Response)
    requires s.Valid() && !request.CreateRole?
    modifies s
    ensures var c := old(s.View());
      var (effect, answer) := Decide(c, sender, request, now, freshId, freshKey);
      r == answer && s.Performed(c, old(s.db), effect)
  {
    hide DoJoin, DoSend, DoLeave, CommunityServer.Valid, CommunityServer.View, CommunityServer.Performed;
    if IsRoleRequest(request) {
      r := HandleRoleRequest(s, sender, request, now, freshId, freshKey);
    } else if IsModeration(request) {
      r := HandleModeration(s, sender, request, now, freshId, freshKey);
    } else if IsChannelRequest(request) {
      r := HandleChannelRequest(s, sender, request, now, freshId, freshKey);
    } else {
      match request {
        case Join(name, route) => r := s.HandleJoin(sender, name, route, now);
        case SendMessage(channel, text, generation) =>
          r := s.HandleSendMessage(sender, channel, text, generation, now);
        case GetMessages(channel, before, limit) => r := s.HandleGetMessages(sender, channel, before, limit);
        case RequestMek => r := s.HandleRequestMek(sender);
        case Leave => r := s.HandleLeave(sender, freshKey);
      }
    }
  }

  /** One event, request or restart. */
  method HandleEvent(s: CommunityServer, e: Event) returns (r: Response)
    requires s.Valid() && Consistent(s.db)
    modifies s
    ensures s.Valid() && Consistent(s.db)
    ensures (LiveOf(s), r) == Step(old(LiveOf(s)), e)
  {
    StepKeepsConsistent(LiveOf(s), e);
    hide Resolve, Consistent, CommunityServer.Valid, CommunityServer.View, Hosted, Provisioned, Register, PersistRegister,
      Apply, Persist;
    match e {
      case Call(sender, request, now, freshId, freshKey) =>
        r := HandleRequest(s, sender, request, now, freshId, freshKey);
      case Rehost(creatorKey, name, now, freshKey) =>
        HostCommunity(s, creatorKey, name, now, freshKey);
        r := Ok;
    }
  }

  /**
   A whole run, whatever is asked: the server's answers are the model's, and so are its memory and its tables at the
   end. So every theorem about runs of the model is one about the server.
   */
  method HandleAll(s: CommunityServer, events: seq<Event>) returns (answers: seq<Response>)
    requires s.Valid() && Consistent(s.db)
    modifies s
    ensures s.Valid() && Consistent(s.db)
    ensures answers == Answers(old(LiveOf(s)), events)
    ensures LiveOf(s) == Run(old(LiveOf(s)), events)
    decreases events
  {
    hide Step, Consistent, CommunityServer.Valid, LiveOf;
    if events == [] {
      return [];
    }
    var first := HandleEvent(s, events[0]);
    var rest := HandleAll(s, events[1..]);
    return [first] + rest;
  }

  // ---------------------------------------------------------------------------
  // The first hosting
  // ---------------------------------------------------------------------------

  /** From a database without rows, hosting creates what the model starts with. */
  lemma {:induction false} NothingStoredYet(freshKey: Key, now: nat)
    ensures Reloaded(NO_ROWS, freshKey, now) == NewLive(freshKey)
  {
    assert ReadRoles(NO_ROWS.roles) == map[];
    assert DefaultRoles() + map[] == DefaultRoles();
    NewLoads(freshKey, now);
    hide Load, DefaultRoles;
  }

  /** Hosting a new community without rows is restarting one that has just been made. */
  lemma {:induction false} FirstHosting(key: Key, creatorKey: Pseudonym, name: string, start: nat)
    ensures Step(NewLive(key), Rehost(creatorKey, name, start, key)) ==
            (Registering(Reloaded(NO_ROWS, key, start), creatorKey, name, start), Ok)
  {
    NothingStoredYet(key, start);
    NewIsSettled(key, start);
    ReloadsWhatIsStored(NewLive(key), key, start);
    NewLoads(key, start);
    hide Registering, Reloaded, Settled;
  }

  lemma {:induction false} NoRowsConsistent()
    ensures Consistent(NO_ROWS)
  {
  }

  /**
   A whole life: a community hosted for the first time, its creator registered on the spot or not, and then any
   requests and restarts. Memory and tables are the model's run from the first state.
   */
  method HostAndServe(s: CommunityServer, creatorKey: Pseudonym, name: string, start: nat, freshKey: Key,
                      events: seq<Event>) returns (answers: seq<Response>)
    requires s.db == NO_ROWS
    modifies s
    ensures s.Valid()
    ensures var all := [Rehost(creatorKey, name, start, freshKey)] + events;
      && LiveOf(s) == Run(NewLive(freshKey), all)
      && [Ok] + answers == Answers(NewLive(freshKey), all)
      && InSync(LiveOf(s))
  {
    NoRowsConsistent();
    FirstHosting(freshKey, creatorKey, name, start);
    ghost var first := Rehost(creatorKey, name, start, freshKey);
    ghost var all := [first] + events;
    assert all[1..] == events && all[0] == first;
    EveryReachableServerIsInSync(freshKey, all);
    NewConsistent(freshKey);
    StepKeepsConsistent(NewLive(freshKey), first);
    hide Step, Consistent, InSync, CommunityServer.Valid, Hosted, Provisioned, Register, PersistRegister, NewLive;
    HostCommunity(s, creatorKey, name, start, freshKey);
    answers := HandleAll(s, events);
  }

  lemma {:induction false} NewConsistent(key: Key)
    ensures Consistent(NewLive(key).tables)
  {
  }
}
