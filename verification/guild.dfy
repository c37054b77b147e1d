/**
  Voice reconciliation for one guild (`GuildState` in discord/guild.go).

  A pass reads the guild's voice-state snapshot, asks the voice rules what
  mute/deafen state each cached user should have, and queues a patch for
  every user whose actual state differs and who has no request in flight.
  The per-user `pendingVoiceUpdate` flag is the anti-duplication lock: it is
  set when a patch is queued and cleared only by a verification pass that
  sees the requested state has landed.

  Collaborators are parameters: the voice rules are an uninterpreted total
  function, the user cache is a map, the tracked channels a set, and
  `checkCacheAndAddUser` a partial map from user ID to a fresh record.
 */
module Guild {
  import opened Wrappers
  import opened Game
  import opened PatchHeap
  import Dispatch
  import StateMessage
  import Permutations

  /** One entry of the guild's voice-state snapshot. */
  datatype VoiceState = VoiceState(userID: string, channelID: string, mute: bool, deaf: bool)

  /** Which users a pass dispatches first. */
  datatype HandlePriority = NoPriority | AlivePriority | DeadPriority

  /** `UserPatchParameters`: one request to set a member's deafen, mute and nickname. */
  datatype UserPatchParameters = UserPatchParameters(guildID: string, userID: string, deaf: bool, mute: bool, nick: string)

  type Patch = Prioritized<UserPatchParameters>

  /** `VoiceRules.GetVoiceState`: (alive, tracked, phase) to (mute, deaf). */
  type VoiceRules = (bool, bool, Phase) -> (bool, bool)

  /** The guild settings and game state a pass reads but never changes. */
  datatype GuildConfig = GuildConfig(
    guildID: string,
    tracking: set<string>,
    applyNicknames: bool,
    phase: Phase,
    rules: VoiceRules)

  /** `UserDataSet`: the per-guild user cache, keyed by user ID. */
  type UserDataSet = map<string, UserData>

  /**
    What `checkCacheAndAddUser` finds for a user missing from the cache
    (guild member list first, then a remote lookup); absent when both fail.
   */
  type MemberDirectory = map<string, UserData>

  /**
    How the proposal condition of `handleTrackedMembers` is grouped.
    `GoPrecedence` is the code as written, where `&&` binds tighter than
    `||` and the linked check guards only the mute term. `LinkGuarded` is
    the grouping the comment above it intends, which also matches the
    single-event path.
   */
  datatype Precedence = GoPrecedence | LinkGuarded

  // ----- per-user building blocks -----

  /** The record a pass works with for `uid`: the cached one, else the directory's. */
  function Resolve(users: UserDataSet, dir: MemberDirectory, uid: string): (r: Option<UserData>)
    ensures r.Some? <==> uid in users || uid in dir
    ensures uid in users ==> r == Some(users[uid])
    ensures uid !in users && uid in dir ==> r == Some(dir[uid])
  {
    if uid in users then Some(users[uid])
    else if uid in dir then Some(dir[uid])
    else None
  }

  /** The cache after resolving `uid`: a record found in the directory is added. */
  function Remember(users: UserDataSet, dir: MemberDirectory, uid: string): (r: UserDataSet)
    requires Resolve(users, dir, uid).Some?
    ensures r == users[uid := Resolve(users, dir, uid).value]
  {
    if uid in users then users else users[uid := dir[uid]]
  }

  /** A user counts as tracked only when in a tracked channel AND linked to a player. */
  predicate EffectiveTracked(cfg: GuildConfig, rec: UserData, channelID: string)
  {
    channelID in cfg.tracking && rec.linked
  }

  /** The (mute, deaf) pair the voice rules ask for. */
  function Desired(cfg: GuildConfig, rec: UserData, channelID: string): (bool, bool)
  {
    cfg.rules(rec.alive, EffectiveTracked(cfg, rec, channelID), cfg.phase)
  }

  /** The user's actual mute and deafen already equal the desired ones. */
  predicate Settled(cfg: GuildConfig, rec: UserData, vs: VoiceState)
  {
    var (mute, deaf) := Desired(cfg, rec, vs.channelID);
    vs.mute == mute && vs.deaf == deaf
  }

  /** The nickname a patch carries: the player name, or "" when nicknames are not applied. */
  function Nick(cfg: GuildConfig, rec: UserData): (r: string)
    ensures !cfg.applyNicknames ==> r == ""
    ensures cfg.applyNicknames ==> r == rec.playerName
  {
    if cfg.applyNicknames then rec.playerName else ""
  }

  /** The proposal condition of `handleTrackedMembers`, under either grouping. */
  predicate NeedsPatch(prec: Precedence, cfg: GuildConfig, rec: UserData, vs: VoiceState)
  {
    var (mute, deaf) := Desired(cfg, rec, vs.channelID);
    var muteDiff := mute != vs.mute;
    var deafDiff := deaf != vs.deaf;
    var nickDiff := Nick(cfg, rec) != "" && rec.nickName != rec.playerName;
    match prec
    case GoPrecedence => (rec.linked && muteDiff) || deafDiff || nickDiff
    case LinkGuarded => rec.linked && (muteDiff || deafDiff || nickDiff)
  }

  /** The priority a queued patch gets: one tier up for the favoured side, 0 otherwise. */
  function Priority(mode: HandlePriority, alive: bool): (p: int)
    ensures p == 0 || p == 1
    ensures p == 1 <==> (mode == AlivePriority && alive) || (mode == DeadPriority && !alive)
    ensures mode == NoPriority ==> p == 0
  {
    var priority := 0;
    if mode != NoPriority then
      if mode == AlivePriority && alive then priority + 1
      else if mode == DeadPriority && !alive then priority + 1
      else priority
    else priority
  }

  /**
    The patch a pass queues for a user with record `rec` and voice state
    `vs`: one exactly when the proposal condition holds and no request is
    already pending for the user.
   */
  function Proposal(prec: Precedence, cfg: GuildConfig, mode: HandlePriority, rec: UserData, vs: VoiceState): (r: Option<Patch>)
    ensures r.Some? <==> NeedsPatch(prec, cfg, rec, vs) && !rec.pendingVoiceUpdate
    ensures r.Some? ==> r.value.item.userID == vs.userID && r.value.item.guildID == cfg.guildID
    ensures r.Some? ==> (r.value.item.mute, r.value.item.deaf) == Desired(cfg, rec, vs.channelID)
    ensures r.Some? ==> r.value.priority == Priority(mode, rec.alive) && r.value.item.nick == Nick(cfg, rec)
  {
    if NeedsPatch(prec, cfg, rec, vs) && !rec.pendingVoiceUpdate then
      var (mute, deaf) := Desired(cfg, rec, vs.channelID);
      Some(Prioritized(Priority(mode, rec.alive), UserPatchParameters(cfg.guildID, vs.userID, deaf, mute, Nick(cfg, rec))))
    else
      None
  }

  // ----- snapshots -----

  function SnapshotUsers(s: seq<VoiceState>): set<string>
  {
    set i | 0 <= i < |s| :: s[i].userID
  }

  /** Discord reports at most one voice state per user and guild. */
  ghost predicate DistinctUsers(s: seq<VoiceState>)
  {
    forall i, j :: 0 <= i < j < |s| ==> s[i].userID != s[j].userID
  }

  /**
    Every record a pass can resolve, before the pass: the cache, and for
    users missing from it the directory.
   */
  function Origin(users: UserDataSet, dir: MemberDirectory): (o: UserDataSet)
    ensures forall u :: u in o <==> Resolve(users, dir, u).Some?
    ensures forall u :: u in o ==> Resolve(users, dir, u) == Some(o[u])
  {
    dir + users
  }

  /** Every record in `after` is the original one with at most the pending flag changed. */
  ghost predicate OnlyPendingChanged(origin: UserDataSet, after: UserDataSet)
  {
    forall u :: u in after ==> u in origin && SameExceptPending(after[u], origin[u])
  }

  /** Users outside the snapshot keep their cache entry (or its absence). */
  ghost predicate FramedBy(users: UserDataSet, after: UserDataSet, ids: set<string>)
  {
    && users.Keys <= after.Keys
    && after.Keys <= users.Keys + ids
    && forall u :: u in users && u !in ids ==> after[u] == users[u]
  }

  // ----- verification pass: verifyVoiceStateChanges -----

  /** One record after verification: the pending flag is cleared once the state has landed. */
  function VerifyRecord(cfg: GuildConfig, rec: UserData, vs: VoiceState): (r: UserData)
    ensures SameExceptPending(r, rec)
    ensures r.pendingVoiceUpdate <==> rec.pendingVoiceUpdate && !Settled(cfg, rec, vs)
  {
    if rec.pendingVoiceUpdate && Settled(cfg, rec, vs) then WithPending(rec, false) else rec
  }

  /** One iteration of the verification loop. */
  function VerifyStep(cfg: GuildConfig, dir: MemberDirectory, users: UserDataSet, vs: VoiceState): (r: UserDataSet)
    ensures Resolve(users, dir, vs.userID).None? ==> r == users
    ensures Resolve(users, dir, vs.userID).Some? ==>
      r == users[vs.userID := VerifyRecord(cfg, Resolve(users, dir, vs.userID).value, vs)]
  {
    match Resolve(users, dir, vs.userID)
    case None => users
    case Some(rec) =>
      var cached := Remember(users, dir, vs.userID);
      if rec.pendingVoiceUpdate && Settled(cfg, rec, vs) then
        cached[vs.userID := WithPending(rec, false)]
      else
        cached
  }

  /**
    `verifyVoiceStateChanges`: the loop over the snapshot. It only ever
    clears pending flags, adds the directory records it resolves, and leaves
    users outside the snapshot alone.
   */
  function Verify(cfg: GuildConfig, dir: MemberDirectory, users: UserDataSet, s: seq<VoiceState>): (r: UserDataSet)
    ensures FramedBy(users, r, SnapshotUsers(s))
    ensures OnlyPendingChanged(Origin(users, dir), r)
    ensures forall u :: u in r && r[u].pendingVoiceUpdate ==> Origin(users, dir)[u].pendingVoiceUpdate
    decreases |s|
  {
    if |s| == 0 then users
    else
      var s' := s[..|s| - 1];
      var prev := Verify(cfg, dir, users, s');
      assert SnapshotUsers(s) == SnapshotUsers(s') + {s[|s| - 1].userID};
      VerifyStepKeeps(cfg, dir, users, prev, s[|s| - 1], SnapshotUsers(s'));
      VerifyStep(cfg, dir, prev, s[|s| - 1])
  }

  /** A verification step touches only its own user, and only by clearing the flag. */
  lemma VerifyStepKeeps(cfg: GuildConfig, dir: MemberDirectory, users: UserDataSet, prev: UserDataSet,
                        vs: VoiceState, ids: set<string>)
    requires FramedBy(users, prev, ids) && OnlyPendingChanged(Origin(users, dir), prev)
    requires forall u :: u in prev && prev[u].pendingVoiceUpdate ==> Origin(users, dir)[u].pendingVoiceUpdate
    ensures var r := VerifyStep(cfg, dir, prev, vs);
      && FramedBy(users, r, ids + {vs.userID})
      && OnlyPendingChanged(Origin(users, dir), r)
      && forall u :: u in r && r[u].pendingVoiceUpdate ==> Origin(users, dir)[u].pendingVoiceUpdate
  {
    var origin := Origin(users, dir);
    var u := vs.userID;
    if Resolve(prev, dir, u).Some? {
      var rec := Resolve(prev, dir, u).value;
      assert u in origin && SameExceptPending(rec, origin[u]);
      assert rec.pendingVoiceUpdate ==> origin[u].pendingVoiceUpdate;
    }
  }

  // ----- reconciliation pass: handleTrackedMembers -----

  /**
    The loop state of `handleTrackedMembers`: the cache, the priority
    queue, the patches in the order they were pushed, and `updateMade`.
   */
  datatype HandleState = HandleState(users: UserDataSet, queue: Heap<UserPatchParameters>, pushed: seq<Patch>, updateMade: bool)

  /**
    One iteration: resolve the user (skip them when that fails), and when a
    patch is proposed set the pending flag in the cache and push the patch.
   */
  function HandleStep(prec: Precedence, cfg: GuildConfig, mode: HandlePriority, dir: MemberDirectory,
                      st: HandleState, vs: VoiceState): (r: HandleState)
    requires IsHeap(st.queue)
    ensures IsHeap(r.queue)
    ensures Resolve(st.users, dir, vs.userID).None? ==> r == st
    ensures Resolve(st.users, dir, vs.userID).Some? ==>
      var rec := Resolve(st.users, dir, vs.userID).value;
      var p := Proposal(prec, cfg, mode, rec, vs);
      && (p.None? ==> r == st.(users := st.users[vs.userID := rec]))
      && (p.Some? ==>
            && r.users == st.users[vs.userID := WithPending(rec, true)]
            && multiset(r.queue) == multiset(st.queue) + multiset{p.value}
            && r.pushed == st.pushed + [p.value]
            && r.updateMade)
  {
    var found := Resolve(st.users, dir, vs.userID);
    if found.None? then st
    else
      var rec := found.value;
      var cached := Remember(st.users, dir, vs.userID);
      var p := Proposal(prec, cfg, mode, rec, vs);
      if p.None? then st.(users := cached)
      else HandleState(cached[vs.userID := WithPending(rec, true)], Push(st.queue, p.value), st.pushed + [p.value], true)
  }

  /** The key two queued patches must never share. */
  function PatchUser(p: Patch): string
  {
    p.item.userID
  }

  /** A flag set in the original record is still set in `after`: flags are never cleared. */
  ghost predicate NeverCleared(origin: UserDataSet, after: UserDataSet)
  {
    forall u :: u in after && u in origin && origin[u].pendingVoiceUpdate ==> after[u].pendingVoiceUpdate
  }

  /** Every pushed patch is for a user that was not pending when the pass began. */
  ghost predicate PushedWereIdle(origin: UserDataSet, pushed: seq<Patch>)
  {
    forall i :: 0 <= i < |pushed| ==> PatchUser(pushed[i]) in origin && !origin[PatchUser(pushed[i])].pendingVoiceUpdate
  }

  /** Every pushed patch's user is marked pending in `after`. */
  ghost predicate PushedArePending(pushed: seq<Patch>, after: UserDataSet)
  {
    forall i :: 0 <= i < |pushed| ==> PatchUser(pushed[i]) in after && after[PatchUser(pushed[i])].pendingVoiceUpdate
  }

  /** What the proposal loop keeps true of its queue. */
  ghost predicate QueueInvariant(st: HandleState)
  {
    && IsHeap(st.queue) && multiset(st.queue) == multiset(st.pushed)
    && (st.updateMade <==> |st.pushed| > 0)
    && (forall i :: 0 <= i < |st.pushed| ==> st.pushed[i].priority == 0 || st.pushed[i].priority == 1)
  }

  /** What the proposal loop keeps true of the cache. */
  ghost predicate CacheInvariant(users: UserDataSet, origin: UserDataSet, st: HandleState)
  {
    && users.Keys <= st.users.Keys
    && OnlyPendingChanged(origin, st.users)
    && NeverCleared(origin, st.users)
  }

  /** The loop invariant of the proposal loop. */
  ghost predicate HandleInvariant(users: UserDataSet, origin: UserDataSet, st: HandleState)
  {
    && QueueInvariant(st)
    && CacheInvariant(users, origin, st)
    && Permutations.DistinctBy(st.pushed, PatchUser)
    && PushedArePending(st.pushed, st.users)
    && PushedWereIdle(origin, st.pushed)
  }

  /**
    The proposal loop of `handleTrackedMembers` over the snapshot, from an
    empty queue. No user is pushed twice, every pushed user is now pending
    and was idle when the pass began, and no flag is cleared.
   */
  function HandleLoop(prec: Precedence, cfg: GuildConfig, mode: HandlePriority, dir: MemberDirectory,
                      users: UserDataSet, s: seq<VoiceState>): (r: HandleState)
    ensures HandleInvariant(users, Origin(users, dir), r)
    ensures FramedBy(users, r.users, SnapshotUsers(s))
    decreases |s|
  {
    if |s| == 0 then
      HandleState(users, [], [], false)
    else
      var s' := s[..|s| - 1];
      var vs := s[|s| - 1];
      var prev := HandleLoop(prec, cfg, mode, dir, users, s');
      assert SnapshotUsers(s) == SnapshotUsers(s') + {vs.userID};
      HandleStepKeepsInvariant(prec, cfg, mode, dir, users, prev, vs);
      HandleStepFramed(prec, cfg, mode, dir, users, prev, vs, SnapshotUsers(s'));
      HandleStep(prec, cfg, mode, dir, prev, vs)
  }

  /** A step touches only its own user's cache entry. */
  lemma HandleStepFramed(prec: Precedence, cfg: GuildConfig, mode: HandlePriority, dir: MemberDirectory,
                         users: UserDataSet, prev: HandleState, vs: VoiceState, ids: set<string>)
    requires IsHeap(prev.queue) && FramedBy(users, prev.users, ids)
    ensures FramedBy(users, HandleStep(prec, cfg, mode, dir, prev, vs).users, ids + {vs.userID})
  {
  }

  lemma HandleStepKeepsInvariant(prec: Precedence, cfg: GuildConfig, mode: HandlePriority, dir: MemberDirectory,
                                 users: UserDataSet, prev: HandleState, vs: VoiceState)
    requires HandleInvariant(users, Origin(users, dir), prev)
    ensures HandleInvariant(users, Origin(users, dir), HandleStep(prec, cfg, mode, dir, prev, vs))
  {
    var origin := Origin(users, dir);
    var u := vs.userID;
    match Resolve(prev.users, dir, u)
    case None =>
    case Some(rec) =>
      ResolvedIsOriginal(users, dir, prev, u);
      match Proposal(prec, cfg, mode, rec, vs)
      case None =>
        RememberKeepsInvariant(users, origin, prev, u, rec);
      case Some(p) =>
        PushKeepsCacheInvariant(users, origin, prev, rec, u, p);
  }

  /** Mid-pass, the record resolved for `u` is its original one up to the pending flag. */
  lemma ResolvedIsOriginal(users: UserDataSet, dir: MemberDirectory, prev: HandleState, u: string)
    requires CacheInvariant(users, Origin(users, dir), prev)
    requires Resolve(prev.users, dir, u).Some?
    ensures u in Origin(users, dir)
    ensures SameExceptPending(Resolve(prev.users, dir, u).value, Origin(users, dir)[u])
    ensures !Resolve(prev.users, dir, u).value.pendingVoiceUpdate ==> !Origin(users, dir)[u].pendingVoiceUpdate
    ensures u !in prev.users ==> Resolve(prev.users, dir, u).value == Origin(users, dir)[u]
  {
    if u !in prev.users {
      assert u !in users;
    }
  }

  lemma RememberKeepsInvariant(users: UserDataSet, origin: UserDataSet, prev: HandleState, u: string, rec: UserData)
    requires HandleInvariant(users, origin, prev)
    requires u in origin && SameExceptPending(rec, origin[u])
    requires u !in prev.users ==> rec == origin[u]
    requires u in prev.users ==> rec == prev.users[u]
    ensures HandleInvariant(users, origin, prev.(users := prev.users[u := rec]))
  {
  }

  lemma PushKeepsQueueInvariant(prev: HandleState, p: Patch)
    requires QueueInvariant(prev)
    requires p.priority == 0 || p.priority == 1
    ensures QueueInvariant(HandleState(prev.users, Push(prev.queue, p), prev.pushed + [p], true))
  {
  }

  lemma PushKeepsCacheInvariant(users: UserDataSet, origin: UserDataSet, prev: HandleState,
                                rec: UserData, u: string, p: Patch)
    requires HandleInvariant(users, origin, prev)
    requires u in origin && SameExceptPending(rec, origin[u]) && !origin[u].pendingVoiceUpdate
    requires u in prev.users ==> rec == prev.users[u]
    requires !rec.pendingVoiceUpdate
    requires PatchUser(p) == u && (p.priority == 0 || p.priority == 1)
    ensures HandleInvariant(users, origin,
      HandleState(prev.users[u := WithPending(rec, true)], Push(prev.queue, p), prev.pushed + [p], true))
  {
    var r := HandleState(prev.users[u := WithPending(rec, true)], Push(prev.queue, p), prev.pushed + [p], true);
    PushKeepsQueueInvariant(prev, p);
    assert CacheInvariant(users, origin, r);
    forall i | 0 <= i < |prev.pushed|
      ensures PatchUser(prev.pushed[i]) != u
    {
      assert prev.users[PatchUser(prev.pushed[i])].pendingVoiceUpdate;
    }
    AppendKeepsDistinct(prev.pushed, p);
    AppendKeepsPushedFacts(origin, prev.pushed, prev.users, r.users, p);
  }

  lemma AppendKeepsDistinct(pushed: seq<Patch>, p: Patch)
    requires Permutations.DistinctBy(pushed, PatchUser)
    requires forall i :: 0 <= i < |pushed| ==> PatchUser(pushed[i]) != PatchUser(p)
    ensures Permutations.DistinctBy(pushed + [p], PatchUser)
  {
    var r := pushed + [p];
    forall i, j | 0 <= i < j < |r|
      ensures PatchUser(r[i]) != PatchUser(r[j])
    {
      if j < |pushed| {
        assert r[i] == pushed[i] && r[j] == pushed[j];
      } else {
        assert r[i] == pushed[i] && r[j] == p;
      }
    }
  }

  lemma AppendKeepsPushedFacts(origin: UserDataSet, pushed: seq<Patch>, before: UserDataSet, after: UserDataSet, p: Patch)
    requires PushedArePending(pushed, before) && PushedWereIdle(origin, pushed)
    requires PatchUser(p) in origin && !origin[PatchUser(p)].pendingVoiceUpdate
    requires PatchUser(p) in after && after[PatchUser(p)].pendingVoiceUpdate
    requires forall u :: u in before && u != PatchUser(p) ==> u in after && after[u] == before[u]
    requires forall i :: 0 <= i < |pushed| ==> PatchUser(pushed[i]) != PatchUser(p)
    ensures PushedArePending(pushed + [p], after) && PushedWereIdle(origin, pushed + [p])
  {
    var r := pushed + [p];
    forall i | 0 <= i < |r|
      ensures PatchUser(r[i]) in after && after[PatchUser(r[i])].pendingVoiceUpdate
      ensures PatchUser(r[i]) in origin && !origin[PatchUser(r[i])].pendingVoiceUpdate
    {
      if i < |pushed| {
        assert r[i] == pushed[i];
      }
    }
  }

  lemma FramedTransitive(a: UserDataSet, b: UserDataSet, c: UserDataSet, ids: set<string>)
    requires FramedBy(a, b, ids) && FramedBy(b, c, ids)
    ensures FramedBy(a, c, ids)
  {
  }

  /** The result of one `handleTrackedMembers` call. */
  datatype PassResult = PassResult(
    users: UserDataSet,
    sleepSeconds: int,
    cohorts: seq<seq<Patch>>,
    updateMade: bool)

  /** Every patch the pass dispatched, in dispatch order. */
  function Dispatched(r: PassResult): seq<Patch>
  {
    Dispatch.Flatten(r.cohorts)
  }

  /**
    `handleTrackedMembers`: verify, propose over the snapshot, sleep for
    `delay` seconds when positive, then drain the heap as cohorts. It
    reports an update exactly when something was dispatched; no user is
    dispatched twice; every dispatched user is left pending; and every
    positive-priority patch is in an earlier cohort than every priority-0
    one.
   */
  function HandleTrackedMembers(prec: Precedence, cfg: GuildConfig, mode: HandlePriority, dir: MemberDirectory,
                                users: UserDataSet, s: seq<VoiceState>, delay: int): (r: PassResult)
    ensures r.updateMade <==> |Dispatched(r)| > 0
    ensures Permutations.DistinctBy(Dispatched(r), PatchUser)
    ensures PushedArePending(Dispatched(r), r.users)
    ensures NonIncreasing(Dispatched(r))
    ensures |r.cohorts| <= 2
    ensures forall a, b, x: Patch, y: Patch ::
      (0 <= a < |r.cohorts| && 0 <= b < |r.cohorts| && x in r.cohorts[a] && y in r.cohorts[b]
       && x.priority > 0 && y.priority == 0) ==> a < b
    ensures PushedWereIdle(Origin(Verify(cfg, dir, users, s), dir), Dispatched(r))
    ensures r.sleepSeconds == if delay > 0 then delay else 0
    ensures FramedBy(users, r.users, SnapshotUsers(s))
  {
    var verified := Verify(cfg, dir, users, s);
    var st := HandleLoop(prec, cfg, mode, dir, verified, s);
    var order := PopAll(st.queue);
    var r := PassResult(st.users, if delay > 0 then delay else 0, Dispatch.Cohorts(order), st.updateMade);
    DrainFacts(Origin(verified, dir), st, order);
    Dispatch.DrainKeepsOrder(order);
    assert Dispatched(r) == order;
    Dispatch.PositiveCohortFirst(order);
    FramedTransitive(users, verified, st.users, SnapshotUsers(s));
    r
  }

  lemma DrainFacts(origin: UserDataSet, st: HandleState, order: seq<Patch>)
    requires QueueInvariant(st) && Permutations.DistinctBy(st.pushed, PatchUser)
    requires PushedArePending(st.pushed, st.users) && PushedWereIdle(origin, st.pushed)
    requires multiset(order) == multiset(st.queue)
    ensures |order| == |st.pushed|
    ensures Permutations.DistinctBy(order, PatchUser)
    ensures PushedArePending(order, st.users) && PushedWereIdle(origin, order)
    ensures forall i :: 0 <= i < |order| ==> order[i].priority == 0 || order[i].priority == 1
  {
    assert |multiset(order)| == |multiset(st.pushed)|;
    Permutations.DistinctByPermutation(st.pushed, order, PatchUser);
    forall i | 0 <= i < |order|
      ensures PatchUser(order[i]) in st.users && st.users[PatchUser(order[i])].pendingVoiceUpdate
      ensures order[i].priority == 0 || order[i].priority == 1
      ensures PatchUser(order[i]) in origin && !origin[PatchUser(order[i])].pendingVoiceUpdate
    {
      assert order[i] in multiset(st.pushed);
      var j :| 0 <= j < |st.pushed| && st.pushed[j] == order[i];
    }
  }

  // ----- single-event path: voiceStateChange -----

  /** A `VoiceStateUpdate` event: the user's new voice state in a guild. */
  datatype VoiceStateUpdate = VoiceStateUpdate(guildID: string, state: VoiceState)

  /** The cache after the event, the patch issued if any, and the state-message edit if any. */
  datatype EventResult = EventResult(
    users: UserDataSet,
    patch: Option<UserPatchParameters>,
    edit: Option<StateMessage.MessageAction>)

  /**
    `voiceStateChange`: verify against the snapshot, then look at the one
    user the event is about. A patch is issued only for a linked user with
    no request pending whose mute or deafen differs from the desired one;
    the flag is set first, and the game-state message is then edited.
    A user the directory cannot resolve reads as Go's zero record, which
    is unlinked.
   */
  function VoiceStateChange(cfg: GuildConfig, dir: MemberDirectory, users: UserDataSet, s: seq<VoiceState>,
                            m: VoiceStateUpdate, msg: StateMessage.MessageHolder): (r: EventResult)
    ensures var verified := Verify(cfg, dir, users, s);
      var rec := Resolve(verified, dir, m.state.userID);
      && (r.patch.Some? <==>
           rec.Some? && rec.value.linked && !rec.value.pendingVoiceUpdate && !Settled(cfg, rec.value, m.state))
      && (r.patch.Some? ==>
           && r.users == verified[m.state.userID := WithPending(rec.value, true)]
           && r.patch == EventPatch(cfg, rec.value, m))
      && (r.patch.None? ==> r.users == (if rec.Some? then verified[m.state.userID := rec.value] else verified))
    ensures r.edit.Some? <==> r.patch.Some? && StateMessage.Exists(msg)
    ensures r.edit.Some? ==> r.edit == StateMessage.Edit(msg)
  {
    var verified := Verify(cfg, dir, users, s);
    var uid := m.state.userID;
    var found := Resolve(verified, dir, uid);
    var rec := if found.Some? then found.value else ZeroUserData;
    var cached := if found.Some? then Remember(verified, dir, uid) else verified;
    match EventPatch(cfg, rec, m)
    case Some(patch) => EventResult(cached[uid := WithPending(rec, true)], Some(patch), StateMessage.Edit(msg))
    case None => EventResult(cached, None, None)
  }

  /**
    The patch `voiceStateChange` issues for the record `rec`: one exactly
    when the user is linked, has no request pending, and is not already in
    the desired state.
   */
  function EventPatch(cfg: GuildConfig, rec: UserData, m: VoiceStateUpdate): (r: Option<UserPatchParameters>)
    ensures r.Some? <==> rec.linked && !rec.pendingVoiceUpdate && !Settled(cfg, rec, m.state)
    ensures r.Some? ==> r.value.guildID == m.guildID && r.value.userID == m.state.userID
    ensures r.Some? ==> (r.value.mute, r.value.deaf) == Desired(cfg, rec, m.state.channelID) && r.value.nick == Nick(cfg, rec)
  {
    var (mute, deaf) := Desired(cfg, rec, m.state.channelID);
    if rec.linked && !rec.pendingVoiceUpdate && (mute != m.state.mute || deaf != m.state.deaf) then
      Some(UserPatchParameters(m.guildID, m.state.userID, deaf, mute, Nick(cfg, rec)))
    else
      None
  }
}
