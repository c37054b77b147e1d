/**
  Properties of the reconciliation passes that relate several calls or
  pin a whole pass down per user: what a verification pass does to each
  user in the snapshot, which patches a proposal loop pushes (against a
  reference computed from the records at the start of the pass), that a
  repeated pass is quiet, and the effect of the operator grouping in the
  proposal condition.
 */
module GuildProperties {
  import opened Wrappers
  import opened Game
  import opened PatchHeap
  import opened Guild
  import Dispatch
  import Permutations

  // ----- what the decision depends on -----

  /** The diff, the rules and the settledness test ignore the pending flag. */
  lemma DecisionIgnoresPending(prec: Precedence, cfg: GuildConfig, a: UserData, b: UserData, vs: VoiceState)
    requires SameExceptPending(a, b)
    ensures Desired(cfg, a, vs.channelID) == Desired(cfg, b, vs.channelID)
    ensures Settled(cfg, a, vs) <==> Settled(cfg, b, vs)
    ensures NeedsPatch(prec, cfg, a, vs) <==> NeedsPatch(prec, cfg, b, vs)
  {
  }

  // ----- the verification pass, per user -----

  /** A user outside the snapshot resolves after a framed pass as before it. */
  lemma FramedResolve(users: UserDataSet, after: UserDataSet, ids: set<string>, dir: MemberDirectory, u: string)
    requires FramedBy(users, after, ids) && u !in ids
    ensures Resolve(after, dir, u) == Resolve(users, dir, u)
  {
  }

  /** The last voice state's user does not occur earlier in a distinct snapshot. */
  lemma LastIsNew(s: seq<VoiceState>)
    requires DistinctUsers(s) && |s| > 0
    ensures DistinctUsers(s[..|s| - 1])
    ensures s[|s| - 1].userID !in SnapshotUsers(s[..|s| - 1])
    ensures forall i :: 0 <= i < |s| - 1 ==> s[..|s| - 1][i] == s[i] && s[i].userID != s[|s| - 1].userID
  {
  }

  /** Every snapshot user's record in `r` is `VerifyRecord` of its record in `origin`. */
  ghost predicate VerifiedAs(cfg: GuildConfig, origin: UserDataSet, s: seq<VoiceState>, r: UserDataSet)
  {
    forall i :: 0 <= i < |s| ==>
      && (s[i].userID in r <==> s[i].userID in origin)
      && (s[i].userID in origin ==> r[s[i].userID] == VerifyRecord(cfg, origin[s[i].userID], s[i]))
  }

  lemma VerifiedAsStep(cfg: GuildConfig, dir: MemberDirectory, users: UserDataSet, s: seq<VoiceState>, prev: UserDataSet)
    requires |s| > 0
    requires VerifiedAs(cfg, Origin(users, dir), s[..|s| - 1], prev)
    requires forall i :: 0 <= i < |s| - 1 ==> s[..|s| - 1][i] == s[i] && s[i].userID != s[|s| - 1].userID
    requires Resolve(prev, dir, s[|s| - 1].userID) == Resolve(users, dir, s[|s| - 1].userID)
    ensures VerifiedAs(cfg, Origin(users, dir), s, VerifyStep(cfg, dir, prev, s[|s| - 1]))
  {
  }

  /**
    For a snapshot with one voice state per user, a verification pass gives
    every snapshot user whose record resolves exactly `VerifyRecord` of
    that record: the pending flag is cleared iff it was set and the actual
    mute and deafen now equal the desired ones. Users it cannot resolve
    stay absent.
   */
  lemma {:induction false} VerifyPerUser(cfg: GuildConfig, dir: MemberDirectory, users: UserDataSet, s: seq<VoiceState>)
    requires DistinctUsers(s)
    ensures VerifiedAs(cfg, Origin(users, dir), s, Verify(cfg, dir, users, s))
    decreases |s|
  {
    if |s| > 0 {
      var s' := s[..|s| - 1];
      var prev := Verify(cfg, dir, users, s');
      LastIsNew(s);
      VerifyPerUser(cfg, dir, users, s');
      FramedResolve(users, prev, SnapshotUsers(s'), dir, s[|s| - 1].userID);
      VerifiedAsStep(cfg, dir, users, s, prev);
    }
  }

  /** The verification pass never sets a flag, and clears it only for snapshot users. */
  lemma VerifyOnlyClears(cfg: GuildConfig, dir: MemberDirectory, users: UserDataSet, s: seq<VoiceState>, u: string)
    requires u in Verify(cfg, dir, users, s)
    ensures u in Origin(users, dir)
    ensures Verify(cfg, dir, users, s)[u].pendingVoiceUpdate ==> Origin(users, dir)[u].pendingVoiceUpdate
    ensures u !in SnapshotUsers(s) ==> Verify(cfg, dir, users, s)[u] == users[u]
  {
  }

  // ----- the proposal loop against a reference -----

  function OptionToSeq<T>(o: Option<T>): seq<T>
  {
    match o
    case None => []
    case Some(x) => [x]
  }

  /**
    Reference for the proposal loop: the patch each voice state yields from
    its user's record as it was when the loop began, in snapshot order.
   */
  function Proposals(prec: Precedence, cfg: GuildConfig, mode: HandlePriority, origin: UserDataSet, s: seq<VoiceState>): seq<Patch>
  {
    if |s| == 0 then []
    else
      var vs := s[|s| - 1];
      Proposals(prec, cfg, mode, origin, s[..|s| - 1])
        + (if vs.userID in origin then OptionToSeq(Proposal(prec, cfg, mode, origin[vs.userID], vs)) else [])
  }

  /** Every snapshot user's record in `r` is its record in `origin` after its proposal step. */
  ghost predicate ProposedAs(prec: Precedence, cfg: GuildConfig, mode: HandlePriority, origin: UserDataSet,
                             s: seq<VoiceState>, r: UserDataSet)
  {
    forall i :: 0 <= i < |s| ==>
      && (s[i].userID in r <==> s[i].userID in origin)
      && (s[i].userID in origin ==> r[s[i].userID] == AfterProposal(prec, cfg, mode, origin[s[i].userID], s[i]))
  }

  lemma ProposedAsStep(prec: Precedence, cfg: GuildConfig, mode: HandlePriority, dir: MemberDirectory,
                       users: UserDataSet, s: seq<VoiceState>, prev: HandleState)
    requires |s| > 0 && IsHeap(prev.queue)
    requires ProposedAs(prec, cfg, mode, Origin(users, dir), s[..|s| - 1], prev.users)
    requires prev.pushed == Proposals(prec, cfg, mode, Origin(users, dir), s[..|s| - 1])
    requires forall i :: 0 <= i < |s| - 1 ==> s[..|s| - 1][i] == s[i] && s[i].userID != s[|s| - 1].userID
    requires Resolve(prev.users, dir, s[|s| - 1].userID) == Resolve(users, dir, s[|s| - 1].userID)
    ensures ProposedAs(prec, cfg, mode, Origin(users, dir), s, HandleStep(prec, cfg, mode, dir, prev, s[|s| - 1]).users)
    ensures HandleStep(prec, cfg, mode, dir, prev, s[|s| - 1]).pushed == Proposals(prec, cfg, mode, Origin(users, dir), s)
  {
    var origin := Origin(users, dir);
    var vs := s[|s| - 1];
    var after := HandleStep(prec, cfg, mode, dir, prev, vs).users;
    if vs.userID in origin {
      assert after == prev.users[vs.userID := AfterProposal(prec, cfg, mode, origin[vs.userID], vs)];
    }
    ProposedAsExtend(prec, cfg, mode, origin, s, prev.users, after);
  }

  /** Extending the snapshot by a user no earlier voice state has, whose record alone changes. */
  lemma ProposedAsExtend(prec: Precedence, cfg: GuildConfig, mode: HandlePriority, origin: UserDataSet,
                         s: seq<VoiceState>, before: UserDataSet, after: UserDataSet)
    requires |s| > 0
    requires ProposedAs(prec, cfg, mode, origin, s[..|s| - 1], before)
    requires forall i :: 0 <= i < |s| - 1 ==> s[..|s| - 1][i] == s[i] && s[i].userID != s[|s| - 1].userID
    requires s[|s| - 1].userID in origin ==>
      after == before[s[|s| - 1].userID := AfterProposal(prec, cfg, mode, origin[s[|s| - 1].userID], s[|s| - 1])]
    requires s[|s| - 1].userID !in origin ==> after == before && s[|s| - 1].userID !in before
    ensures ProposedAs(prec, cfg, mode, origin, s, after)
  {
    forall i | 0 <= i < |s|
      ensures s[i].userID in after <==> s[i].userID in origin
      ensures s[i].userID in origin ==> after[s[i].userID] == AfterProposal(prec, cfg, mode, origin[s[i].userID], s[i])
    {
      if i < |s| - 1 {
        var s' := s[..|s| - 1];
        assert s'[i] == s[i] && s[i].userID != s[|s| - 1].userID;
        assert s'[i].userID in before <==> s'[i].userID in origin;
        assert s'[i].userID in origin ==> before[s'[i].userID] == AfterProposal(prec, cfg, mode, origin[s'[i].userID], s'[i]);
      }
    }
  }

  /**
    With one voice state per user, the proposal loop pushes exactly the
    reference proposals, in snapshot order, and leaves each snapshot user
    pending iff it was pending or a patch was proposed for them: no step
    disturbs another user's check-and-set.
   */
  lemma {:induction false} HandleLoopPerUser(prec: Precedence, cfg: GuildConfig, mode: HandlePriority, dir: MemberDirectory,
                                             users: UserDataSet, s: seq<VoiceState>)
    requires DistinctUsers(s)
    ensures HandleLoop(prec, cfg, mode, dir, users, s).pushed == Proposals(prec, cfg, mode, Origin(users, dir), s)
    ensures ProposedAs(prec, cfg, mode, Origin(users, dir), s, HandleLoop(prec, cfg, mode, dir, users, s).users)
    decreases |s|
  {
    if |s| > 0 {
      var s' := s[..|s| - 1];
      var prev := HandleLoop(prec, cfg, mode, dir, users, s');
      assert HandleLoop(prec, cfg, mode, dir, users, s) == HandleStep(prec, cfg, mode, dir, prev, s[|s| - 1]);
      LastIsNew(s);
      HandleLoopPerUser(prec, cfg, mode, dir, users, s');
      FramedResolve(users, prev.users, SnapshotUsers(s'), dir, s[|s| - 1].userID);
      ProposedAsStep(prec, cfg, mode, dir, users, s, prev);
    }
  }

  /** A record after its proposal step: marked pending iff a patch was proposed. */
  function AfterProposal(prec: Precedence, cfg: GuildConfig, mode: HandlePriority, rec: UserData, vs: VoiceState): (r: UserData)
    ensures SameExceptPending(r, rec)
    ensures r.pendingVoiceUpdate <==> rec.pendingVoiceUpdate || Proposal(prec, cfg, mode, rec, vs).Some?
  {
    if Proposal(prec, cfg, mode, rec, vs).Some? then WithPending(rec, true) else rec
  }

  // ----- a whole pass, per user -----

  /**
    Reference for a whole pass: the patch each voice state yields from its
    user's record as it was before the pass, after verification against
    the same voice state.
   */
  function PassProposals(prec: Precedence, cfg: GuildConfig, mode: HandlePriority, origin: UserDataSet, s: seq<VoiceState>): seq<Patch>
  {
    if |s| == 0 then []
    else
      var vs := s[|s| - 1];
      PassProposals(prec, cfg, mode, origin, s[..|s| - 1])
        + (if vs.userID in origin then OptionToSeq(Proposal(prec, cfg, mode, VerifyRecord(cfg, origin[vs.userID], vs), vs)) else [])
  }

  /** After verification, the records a pass resolves are the verified originals. */
  lemma VerifiedOrigin(cfg: GuildConfig, dir: MemberDirectory, users: UserDataSet, s: seq<VoiceState>, verified: UserDataSet)
    requires VerifiedAs(cfg, Origin(users, dir), s, verified)
    ensures forall i :: 0 <= i < |s| ==>
      && (s[i].userID in Origin(verified, dir) <==> s[i].userID in Origin(users, dir))
      && (s[i].userID in Origin(users, dir) ==>
            Origin(verified, dir)[s[i].userID] == VerifyRecord(cfg, Origin(users, dir)[s[i].userID], s[i]))
  {
  }

  lemma {:induction false} ProposalsOfVerified(prec: Precedence, cfg: GuildConfig, mode: HandlePriority,
                                               o1: UserDataSet, o2: UserDataSet, s: seq<VoiceState>)
    requires forall i :: 0 <= i < |s| ==>
      && (s[i].userID in o1 <==> s[i].userID in o2)
      && (s[i].userID in o2 ==> o1[s[i].userID] == VerifyRecord(cfg, o2[s[i].userID], s[i]))
    ensures Proposals(prec, cfg, mode, o1, s) == PassProposals(prec, cfg, mode, o2, s)
    decreases |s|
  {
    if |s| > 0 {
      var s' := s[..|s| - 1];
      assert forall i :: 0 <= i < |s'| ==> s'[i] == s[i];
      ProposalsOfVerified(prec, cfg, mode, o1, o2, s');
    }
  }

  /**
    With one voice state per user, a pass dispatches exactly the reference
    patches (as a multiset; the order is the drain order) and leaves each
    snapshot user's record as verification and then the proposal step
    make it.
   */
  lemma PassPerUser(prec: Precedence, cfg: GuildConfig, mode: HandlePriority, dir: MemberDirectory,
                    users: UserDataSet, s: seq<VoiceState>, delay: int)
    requires DistinctUsers(s)
    ensures var r := HandleTrackedMembers(prec, cfg, mode, dir, users, s, delay);
      multiset(Dispatched(r)) == multiset(PassProposals(prec, cfg, mode, Origin(users, dir), s))
    ensures var r := HandleTrackedMembers(prec, cfg, mode, dir, users, s, delay);
      forall i :: 0 <= i < |s| ==>
        && (s[i].userID in r.users <==> s[i].userID in Origin(users, dir))
        && (s[i].userID in Origin(users, dir) ==>
              r.users[s[i].userID] ==
                AfterProposal(prec, cfg, mode, VerifyRecord(cfg, Origin(users, dir)[s[i].userID], s[i]), s[i]))
  {
    var verified := Verify(cfg, dir, users, s);
    var st := HandleLoop(prec, cfg, mode, dir, verified, s);
    var order := PopAll(st.queue);
    VerifyPerUser(cfg, dir, users, s);
    VerifiedOrigin(cfg, dir, users, s, verified);
    HandleLoopPerUser(prec, cfg, mode, dir, verified, s);
    ProposalsOfVerified(prec, cfg, mode, Origin(verified, dir), Origin(users, dir), s);
    Dispatch.DrainKeepsOrder(order);
  }

  // ----- repeating a pass -----

  /**
    One user through two passes with an unchanged voice state, nicknames
    off: the second pass proposes nothing. Either the first pass proposed
    and left the user pending (which the unchanged state cannot clear), or
    it did not and nothing the decision reads has changed.
   */
  lemma RecordQuietAfterPass(prec: Precedence, cfg: GuildConfig, mode: HandlePriority, rec: UserData, vs: VoiceState)
    requires !cfg.applyNicknames
    ensures var once := AfterProposal(prec, cfg, mode, VerifyRecord(cfg, rec, vs), vs);
      Proposal(prec, cfg, mode, VerifyRecord(cfg, once, vs), vs).None?
  {
    var v1 := VerifyRecord(cfg, rec, vs);
    var once := AfterProposal(prec, cfg, mode, v1, vs);
    DecisionIgnoresPending(prec, cfg, rec, v1, vs);
    DecisionIgnoresPending(prec, cfg, v1, once, vs);
    DecisionIgnoresPending(prec, cfg, once, VerifyRecord(cfg, once, vs), vs);
  }

  lemma {:induction false} QuietProposals(prec: Precedence, cfg: GuildConfig, mode: HandlePriority, origin: UserDataSet, s: seq<VoiceState>)
    requires forall i :: 0 <= i < |s| && s[i].userID in origin ==>
      Proposal(prec, cfg, mode, VerifyRecord(cfg, origin[s[i].userID], s[i]), s[i]).None?
    ensures PassProposals(prec, cfg, mode, origin, s) == []
    decreases |s|
  {
    if |s| > 0 {
      var s' := s[..|s| - 1];
      assert forall i :: 0 <= i < |s'| ==> s'[i] == s[i];
      QuietProposals(prec, cfg, mode, origin, s');
    }
  }

  /**
    Running the reconciliation pass again on its own resulting cache, with
    the same snapshot and nicknames off, makes no update: the pending
    flags block every user the first pass patched.
   */
  lemma RepeatedPassIsQuiet(prec: Precedence, cfg: GuildConfig, mode: HandlePriority, dir: MemberDirectory,
                            users: UserDataSet, s: seq<VoiceState>, d1: int, d2: int)
    requires DistinctUsers(s) && !cfg.applyNicknames
    ensures var first := HandleTrackedMembers(prec, cfg, mode, dir, users, s, d1);
      !HandleTrackedMembers(prec, cfg, mode, dir, first.users, s, d2).updateMade
  {
    var first := HandleTrackedMembers(prec, cfg, mode, dir, users, s, d1);
    var o2 := Origin(first.users, dir);
    forall i | 0 <= i < |s| && s[i].userID in o2
      ensures Proposal(prec, cfg, mode, VerifyRecord(cfg, o2[s[i].userID], s[i]), s[i]).None?
    {
      SecondPassQuietAt(prec, cfg, mode, dir, users, s, d1, i);
    }
    QuietProposals(prec, cfg, mode, o2, s);
    PassPerUser(prec, cfg, mode, dir, first.users, s, d2);
  }

  lemma SecondPassQuietAt(prec: Precedence, cfg: GuildConfig, mode: HandlePriority, dir: MemberDirectory,
                          users: UserDataSet, s: seq<VoiceState>, d1: int, i: int)
    requires DistinctUsers(s) && !cfg.applyNicknames && 0 <= i < |s|
    requires s[i].userID in Origin(HandleTrackedMembers(prec, cfg, mode, dir, users, s, d1).users, dir)
    ensures var o2 := Origin(HandleTrackedMembers(prec, cfg, mode, dir, users, s, d1).users, dir);
      Proposal(prec, cfg, mode, VerifyRecord(cfg, o2[s[i].userID], s[i]), s[i]).None?
  {
    var first := HandleTrackedMembers(prec, cfg, mode, dir, users, s, d1);
    var o1 := Origin(users, dir);
    var o2 := Origin(first.users, dir);
    var u := s[i].userID;
    PassPerUser(prec, cfg, mode, dir, users, s, d1);
    assert u in o1;
    assert o2[u] == first.users[u];
    RecordQuietAfterPass(prec, cfg, mode, o1[u], s[i]);
  }

  /**
    With nicknames on, a second pass can propose again: a linked user whose
    cached nickname differs from the player name has the flag cleared by
    verification once mute and deafen have landed, and the nickname
    difference, which the pass never updates in the cache, proposes anew.
   */
  lemma NicknameDriftReproposes()
    ensures var cfg := GuildConfig("g", {"vc"}, true, Lobby, (alive: bool, tracked: bool, ph: Phase) => (false, false));
      var rec := UserData(true, true, false, "nick", "player");
      var vs := VoiceState("u", "vc", false, false);
      var once := AfterProposal(LinkGuarded, cfg, NoPriority, VerifyRecord(cfg, rec, vs), vs);
      && Proposal(LinkGuarded, cfg, NoPriority, VerifyRecord(cfg, rec, vs), vs).Some?
      && Proposal(LinkGuarded, cfg, NoPriority, VerifyRecord(cfg, once, vs), vs).Some?
  {
  }

  // ----- the single-event path against the pass -----

  /**
    With nicknames off, `voiceStateChange` patches a user exactly when the
    pass under the link-guarded grouping would propose one for the same
    record and voice state, and the two requests agree field by field when
    the event comes from the pass's guild.
   */
  lemma EventAgreesWithPass(cfg: GuildConfig, mode: HandlePriority, rec: UserData, m: VoiceStateUpdate)
    requires !cfg.applyNicknames
    ensures EventPatch(cfg, rec, m).Some? <==> Proposal(LinkGuarded, cfg, mode, rec, m.state).Some?
    ensures EventPatch(cfg, rec, m).Some? && m.guildID == cfg.guildID ==>
      EventPatch(cfg, rec, m).value == Proposal(LinkGuarded, cfg, mode, rec, m.state).value.item
  {
  }

  /**
    With nicknames on the two paths part: the single-event path never
    reacts to a nickname difference alone, while the pass proposes a
    rename for a linked user whose voice state has already landed.
   */
  lemma EventIgnoresNicknameDrift()
    ensures var cfg := GuildConfig("g", {"vc"}, true, Lobby, (alive: bool, tracked: bool, ph: Phase) => (false, false));
      var rec := UserData(true, true, false, "nick", "player");
      var m := VoiceStateUpdate("g", VoiceState("u", "vc", false, false));
      && EventPatch(cfg, rec, m).None?
      && Proposal(LinkGuarded, cfg, NoPriority, rec, m.state)
           == Some(Prioritized(0, UserPatchParameters("g", "u", false, false, "player")))
  {
  }

  // ----- the grouping of the proposal condition -----

  lemma {:induction false} PassProposalsFacts(prec: Precedence, cfg: GuildConfig, mode: HandlePriority, origin: UserDataSet, s: seq<VoiceState>)
    ensures forall p :: p in PassProposals(prec, cfg, mode, origin, s) ==>
      && PatchUser(p) in origin
      && (prec == LinkGuarded ==> origin[PatchUser(p)].linked)
    decreases |s|
  {
    if |s| > 0 {
      var vs := s[|s| - 1];
      PassProposalsFacts(prec, cfg, mode, origin, s[..|s| - 1]);
      if vs.userID in origin {
        var v := VerifyRecord(cfg, origin[vs.userID], vs);
        assert v.linked == origin[vs.userID].linked;
      }
    }
  }

  /**
    Corrected grouping: a pass never dispatches a patch for a user who is
    not linked to a player.
   */
  lemma LinkGuardedPatchesOnlyLinked(cfg: GuildConfig, mode: HandlePriority, dir: MemberDirectory,
                                     users: UserDataSet, s: seq<VoiceState>, delay: int)
    requires DistinctUsers(s)
    ensures var r := HandleTrackedMembers(LinkGuarded, cfg, mode, dir, users, s, delay);
      forall p :: p in Dispatched(r) ==>
        PatchUser(p) in Origin(users, dir) && Origin(users, dir)[PatchUser(p)].linked
  {
    var r := HandleTrackedMembers(LinkGuarded, cfg, mode, dir, users, s, delay);
    PassPerUser(LinkGuarded, cfg, mode, dir, users, s, delay);
    PassProposalsFacts(LinkGuarded, cfg, mode, Origin(users, dir), s);
    forall p | p in Dispatched(r)
      ensures p in PassProposals(LinkGuarded, cfg, mode, Origin(users, dir), s)
    {
      assert p in multiset(Dispatched(r));
    }
  }

  /** The two groupings decide alike for linked users; they differ only on unlinked ones. */
  lemma GroupingsAgreeWhenLinked(cfg: GuildConfig, rec: UserData, vs: VoiceState)
    ensures rec.linked ==> (NeedsPatch(GoPrecedence, cfg, rec, vs) <==> NeedsPatch(LinkGuarded, cfg, rec, vs))
    ensures !rec.linked ==> !NeedsPatch(LinkGuarded, cfg, rec, vs)
    ensures !rec.linked ==> (NeedsPatch(GoPrecedence, cfg, rec, vs) <==>
      Desired(cfg, rec, vs.channelID).1 != vs.deaf || (cfg.applyNicknames && rec.playerName != "" && rec.nickName != rec.playerName))
  {
  }

  /** A guild whose rules undeafen and unmute everyone not tracked, and mute and deafen tracked players. */
  function BotGuild(): (cfg: GuildConfig)
    ensures !cfg.applyNicknames && "vc" in cfg.tracking
  {
    GuildConfig("g", {"vc"}, false, Tasks,
                (alive: bool, tracked: bool, ph: Phase) => if tracked then (true, true) else (false, false))
  }

  /**
    The grouping as written: a server-deafened member (voice state `Deaf`,
    not `SelfDeaf`) who is not linked to any player, sitting in a tracked
    channel, is undeafened by the pass, because the deafen difference is not
    guarded by the link check. The corrected grouping leaves the member alone.
   */
  lemma GoPrecedencePatchesUnlinked()
    ensures var users := map["bot" := ZeroUserData];
      var s := [VoiceState("bot", "vc", false, true)];
      var r := HandleTrackedMembers(GoPrecedence, BotGuild(), NoPriority, map[], users, s, 0);
      && !users["bot"].linked
      && multiset(Dispatched(r)) == multiset{Prioritized(0, UserPatchParameters("g", "bot", false, false, ""))}
      && !HandleTrackedMembers(LinkGuarded, BotGuild(), NoPriority, map[], users, s, 0).updateMade
  {
    var cfg := BotGuild();
    var users := map["bot" := ZeroUserData];
    var vs := VoiceState("bot", "vc", false, true);
    var s := [vs];
    assert DistinctUsers(s);
    assert Origin(users, map[]) == users;
    var v := VerifyRecord(cfg, ZeroUserData, vs);
    assert v == ZeroUserData;
    assert Desired(cfg, v, "vc") == (false, false);
    var p := Prioritized(0, UserPatchParameters("g", "bot", false, false, ""));
    assert Proposal(GoPrecedence, cfg, NoPriority, v, vs) == Some(p);
    assert Proposal(LinkGuarded, cfg, NoPriority, v, vs) == None;
    assert s[..0] == [];
    assert PassProposals(GoPrecedence, cfg, NoPriority, users, s) == [p];
    assert PassProposals(LinkGuarded, cfg, NoPriority, users, s) == [];
    PassPerUser(GoPrecedence, cfg, NoPriority, map[], users, s, 0);
    PassPerUser(LinkGuarded, cfg, NoPriority, map[], users, s, 0);
  }
}
