/**
  The display-name map that `createPrivateMapMessage` builds from the
  voice states of one voice channel: user ID to the member's nickname (or
  account name when the nickname is empty), with `#discriminator`
  appended to every entry that collides with a newly added name.
 */
module NameMap {
  import opened Wrappers
  import Guild

  /** The one voice channel whose occupants are listed. */
  const VoiceChannel: string := "758099224838668299"

  datatype User = User(id: string, username: string, discriminator: string)

  datatype Member = Member(nick: string, user: User)

  /**
    The two member sources: the session's state cache (`State.Member`) and
    the remote lookup it falls back to (`GuildMember`). A key missing from a
    map is a lookup that fails.
   */
  datatype Members = Members(state: map<string, Member>, remote: map<string, Member>)

  /**
    Where the collision rewrite looks up a discriminator. `StateOnly` is
    the code as written, which asks only the state cache and dereferences
    the result unchecked; `WithFallback` uses the same lookup as the member
    itself.
   */
  datatype DiscriminatorSource = StateOnly | WithFallback

  /** The member for a voice state: the state cache first, then the remote lookup. */
  function FindMember(ms: Members, uid: string): (r: Option<Member>)
    ensures r.Some? <==> uid in ms.state || uid in ms.remote
    ensures uid in ms.state ==> r == Some(ms.state[uid])
    ensures uid !in ms.state && uid in ms.remote ==> r == Some(ms.remote[uid])
  {
    if uid in ms.state then Some(ms.state[uid])
    else if uid in ms.remote then Some(ms.remote[uid])
    else None
  }

  /** Both sources are keyed by the member's own user ID. */
  ghost predicate WellKeyed(ms: Members)
  {
    && (forall k :: k in ms.state ==> ms.state[k].user.id == k)
    && (forall k :: k in ms.remote ==> ms.remote[k].user.id == k)
  }

  /** The name a member is listed under: the nickname, or the account name when it has none. */
  function DisplayName(m: Member): (r: string)
    ensures m.nick != "" ==> r == m.nick
    ensures m.nick == "" ==> r == m.user.username
  {
    if m.nick == "" then m.user.username else m.nick
  }

  /**
    The discriminator for the rewrite of `uid`'s entry; `None` where the Go
    code would dereference a nil member.
   */
  function Discriminator(how: DiscriminatorSource, ms: Members, uid: string): (r: Option<string>)
    ensures how == StateOnly ==> (r.Some? <==> uid in ms.state)
    ensures how == WithFallback ==> (r.Some? <==> FindMember(ms, uid).Some?)
    ensures r.Some? ==> FindMember(ms, uid).Some? && r.value == FindMember(ms, uid).value.user.discriminator
  {
    match how
    case StateOnly => if uid in ms.state then Some(ms.state[uid].user.discriminator) else None
    case WithFallback =>
      match FindMember(ms, uid)
      case None => None
      case Some(m) => Some(m.user.discriminator)
  }

  /** Every lookup the collision rewrite of `name` makes succeeds. */
  predicate CanDisambiguate(how: DiscriminatorSource, ms: Members, names: map<string, string>, name: string)
  {
    forall k :: k in names && names[k] == name ==> Discriminator(how, ms, k).Some?
  }

  /**
    The collision rewrite: a copy of the map in which every entry equal to
    `name` gets `#` and its user's discriminator appended. Fails when a
    lookup fails.
   */
  function Disambiguate(how: DiscriminatorSource, ms: Members, names: map<string, string>, name: string): (r: Option<map<string, string>>)
    ensures r.Some? <==> CanDisambiguate(how, ms, names, name)
    ensures r.Some? ==> r.value.Keys == names.Keys
    ensures r.Some? ==> forall k :: k in names && names[k] != name ==> r.value[k] == names[k]
    ensures r.Some? ==> forall k :: k in names && names[k] == name ==>
      r.value[k] == name + "#" + FindMember(ms, k).value.user.discriminator
  {
    if CanDisambiguate(how, ms, names, name) then
      Some(map k | k in names :: if names[k] == name then name + "#" + Discriminator(how, ms, k).value else names[k])
    else
      None
  }

  /** The user ID a voice state adds to the map, if any: an in-channel voice state whose member resolves. */
  function StepIDs(ms: Members, vs: Guild.VoiceState): set<string>
  {
    if vs.channelID == VoiceChannel && FindMember(ms, vs.userID).Some? then {FindMember(ms, vs.userID).value.user.id} else {}
  }

  /**
    One iteration of the loop over the guild's voice states. `None` stands
    for the nil dereference of the collision rewrite.
   */
  function NameStep(how: DiscriminatorSource, ms: Members, names: map<string, string>, vs: Guild.VoiceState): (r: Option<map<string, string>>)
    ensures vs.channelID != VoiceChannel ==> r == Some(names)
    ensures FindMember(ms, vs.userID).None? ==> r == Some(names)
    ensures r.Some? ==> r.value.Keys == names.Keys + StepIDs(ms, vs)
  {
    if vs.channelID != VoiceChannel then Some(names)
    else
      match FindMember(ms, vs.userID)
      case None => Some(names)
      case Some(member) =>
        var uid := member.user.id;
        var name := DisplayName(member);
        if uid in names && names[uid] != "" then Some(names)
        else
          var collision := name in names.Values;
          var inserted := names[uid := name];
          if collision then Disambiguate(how, ms, inserted, name) else Some(inserted)
  }

  /** The loop over the guild's voice states, in order, from an empty map. */
  function BuildNameMap(how: DiscriminatorSource, ms: Members, s: seq<Guild.VoiceState>): (r: Option<map<string, string>>)
    decreases |s|
  {
    if |s| == 0 then Some(map[])
    else
      match BuildNameMap(how, ms, s[..|s| - 1])
      case None => None
      case Some(names) => NameStep(how, ms, names, s[|s| - 1])
  }

  // ----- single steps -----

  /** A user already listed under a non-empty name keeps it; a repeated voice state changes nothing. */
  lemma SavedUserKeepsName(how: DiscriminatorSource, ms: Members, names: map<string, string>, vs: Guild.VoiceState)
    requires FindMember(ms, vs.userID).Some?
    requires var uid := FindMember(ms, vs.userID).value.user.id; uid in names && names[uid] != ""
    ensures NameStep(how, ms, names, vs) == Some(names)
  {
  }

  /**
    A new user whose name no entry has yet is added as exactly one entry
    under that name; every other entry is untouched.
   */
  lemma FreshNameInsertsOne(how: DiscriminatorSource, ms: Members, names: map<string, string>, vs: Guild.VoiceState)
    requires vs.channelID == VoiceChannel && FindMember(ms, vs.userID).Some?
    requires var m := FindMember(ms, vs.userID).value;
      !(m.user.id in names && names[m.user.id] != "") && DisplayName(m) !in names.Values
    ensures var m := FindMember(ms, vs.userID).value;
      var r := NameStep(how, ms, names, vs);
      && r.Some? && r.value.Keys == names.Keys + {m.user.id}
      && r.value[m.user.id] == DisplayName(m)
      && forall k :: k in names && k != m.user.id ==> r.value[k] == names[k]
  {
  }

  /**
    A new user whose name some entry already has: every entry equal to the
    name, the new one included, gets its user's discriminator appended and
    every other entry is untouched. The step fails exactly when one of
    those discriminator lookups does.
   */
  lemma CollisionSuffixesAll(how: DiscriminatorSource, ms: Members, names: map<string, string>, vs: Guild.VoiceState)
    requires vs.channelID == VoiceChannel && FindMember(ms, vs.userID).Some?
    requires var m := FindMember(ms, vs.userID).value;
      !(m.user.id in names && names[m.user.id] != "") && DisplayName(m) in names.Values
    ensures var m := FindMember(ms, vs.userID).value;
      var name := DisplayName(m);
      var inserted := names[m.user.id := name];
      var r := NameStep(how, ms, names, vs);
      && (r.Some? <==> CanDisambiguate(how, ms, inserted, name))
      && (r.Some? ==>
            && r.value.Keys == names.Keys + {m.user.id}
            && (forall k :: k in inserted && inserted[k] == name ==>
                  r.value[k] == name + "#" + FindMember(ms, k).value.user.discriminator)
            && (forall k :: k in names && k != m.user.id && names[k] != name ==> r.value[k] == names[k]))
  {
  }

  /** Seeing the same voice state twice lists the user as seeing it once, unless the name is empty. */
  lemma NameStepIdempotent(how: DiscriminatorSource, ms: Members, names: map<string, string>, vs: Guild.VoiceState)
    requires NameStep(how, ms, names, vs).Some?
    requires FindMember(ms, vs.userID).Some? ==> DisplayName(FindMember(ms, vs.userID).value) != ""
    ensures var once := NameStep(how, ms, names, vs).value; NameStep(how, ms, once, vs) == Some(once)
  {
    var once := NameStep(how, ms, names, vs).value;
    if vs.channelID == VoiceChannel && FindMember(ms, vs.userID).Some? {
      var m := FindMember(ms, vs.userID).value;
      var uid := m.user.id;
      var name := DisplayName(m);
      if !(uid in names && names[uid] != "") && name in names.Values {
        assert once[uid] == name + "#" + FindMember(ms, uid).value.user.discriminator;
        assert |once[uid]| > 0;
      }
      SavedUserKeepsName(how, ms, once, vs);
    }
  }

  // ----- the whole loop -----

  /** The user IDs the in-channel voice states of `s` resolve to. */
  function InChannelIDs(ms: Members, s: seq<Guild.VoiceState>): set<string>
  {
    set i | 0 <= i < |s| && s[i].channelID == VoiceChannel && FindMember(ms, s[i].userID).Some? ::
      FindMember(ms, s[i].userID).value.user.id
  }

  lemma InChannelIDsSnoc(ms: Members, s: seq<Guild.VoiceState>)
    requires |s| > 0
    ensures InChannelIDs(ms, s) == InChannelIDs(ms, s[..|s| - 1]) + StepIDs(ms, s[|s| - 1])
  {
    var s' := s[..|s| - 1];
    assert forall i :: 0 <= i < |s'| ==> s'[i] == s[i];
    forall u | u in InChannelIDs(ms, s)
      ensures u in InChannelIDs(ms, s') + StepIDs(ms, s[|s| - 1])
    {
      var i :| 0 <= i < |s| && s[i].channelID == VoiceChannel && FindMember(ms, s[i].userID).Some?
        && FindMember(ms, s[i].userID).value.user.id == u;
      if i < |s'| {
        assert s'[i] == s[i];
      }
    }
  }

  /** Every entry is keyed by a member ID and starts with that member's display name. */
  ghost predicate ListedUnderOwnName(ms: Members, names: map<string, string>)
  {
    forall k :: k in names ==> FindMember(ms, k).Some? && DisplayName(FindMember(ms, k).value) <= names[k]
  }

  lemma NameStepKeepsListed(how: DiscriminatorSource, ms: Members, names: map<string, string>, vs: Guild.VoiceState)
    requires WellKeyed(ms) && ListedUnderOwnName(ms, names)
    ensures how == WithFallback ==> NameStep(how, ms, names, vs).Some?
    ensures NameStep(how, ms, names, vs).Some? ==> ListedUnderOwnName(ms, NameStep(how, ms, names, vs).value)
  {
    if vs.channelID == VoiceChannel && FindMember(ms, vs.userID).Some? {
      var m := FindMember(ms, vs.userID).value;
      var uid := m.user.id;
      var name := DisplayName(m);
      assert FindMember(ms, uid) == Some(m);
      var inserted := names[uid := name];
      assert ListedUnderOwnName(ms, inserted);
      if !(uid in names && names[uid] != "") && name in names.Values {
        DisambiguateKeepsListed(how, ms, inserted, name);
      }
    }
  }

  lemma DisambiguateKeepsListed(how: DiscriminatorSource, ms: Members, names: map<string, string>, name: string)
    requires ListedUnderOwnName(ms, names)
    ensures how == WithFallback ==> Disambiguate(how, ms, names, name).Some?
    ensures Disambiguate(how, ms, names, name).Some? ==> ListedUnderOwnName(ms, Disambiguate(how, ms, names, name).value)
  {
    var r := Disambiguate(how, ms, names, name);
    if r.Some? {
      forall k | k in r.value
        ensures FindMember(ms, k).Some? && DisplayName(FindMember(ms, k).value) <= r.value[k]
      {
        if names[k] == name {
          var d := FindMember(ms, k).value.user.discriminator;
          assert r.value[k] == names[k] + ("#" + d);
        }
      }
    }
  }

  /**
    The map lists exactly the members of the in-channel voice states, by
    user ID. With both member sources keyed by user ID, each entry starts
    with its member's display name, and with the fallback lookup the
    rewrite never fails.
   */
  lemma {:induction false} BuildNameMapFacts(how: DiscriminatorSource, ms: Members, s: seq<Guild.VoiceState>)
    ensures BuildNameMap(how, ms, s).Some? ==> BuildNameMap(how, ms, s).value.Keys == InChannelIDs(ms, s)
    ensures WellKeyed(ms) && how == WithFallback ==> BuildNameMap(how, ms, s).Some?
    ensures WellKeyed(ms) && BuildNameMap(how, ms, s).Some? ==> ListedUnderOwnName(ms, BuildNameMap(how, ms, s).value)
    decreases |s|
  {
    if |s| > 0 {
      var s' := s[..|s| - 1];
      BuildNameMapFacts(how, ms, s');
      InChannelIDsSnoc(ms, s);
      if BuildNameMap(how, ms, s').Some? && WellKeyed(ms) {
        NameStepKeepsListed(how, ms, BuildNameMap(how, ms, s').value, s[|s| - 1]);
      }
    }
  }

  // ----- concrete cases -----

  function Alice(): Member { Member("A", User("a", "alice", "1")) }
  function Bob(): Member { Member("A", User("b", "bob", "2")) }
  function Carol(): Member { Member("A", User("c", "carol", "3")) }

  function InChannel(uid: string): Guild.VoiceState
  {
    Guild.VoiceState(uid, VoiceChannel, false, false)
  }

  /** Two users listed under the same name, both found by the lookup, get their discriminators. */
  lemma DisambiguatePair(how: DiscriminatorSource, ms: Members, x: Member, y: Member)
    requires x.user.id != y.user.id && DisplayName(x) == DisplayName(y)
    requires Discriminator(how, ms, x.user.id) == Some(x.user.discriminator)
    requires Discriminator(how, ms, y.user.id) == Some(y.user.discriminator)
    ensures var name := DisplayName(x);
      Disambiguate(how, ms, map[x.user.id := name, y.user.id := name], name)
        == Some(map[x.user.id := name + "#" + x.user.discriminator, y.user.id := name + "#" + y.user.discriminator])
  {
    var name := DisplayName(x);
    var names := map[x.user.id := name, y.user.id := name];
    var expected := map[x.user.id := name + "#" + x.user.discriminator, y.user.id := name + "#" + y.user.discriminator];
    var r := Disambiguate(how, ms, names, name);
    assert r.Some?;
    assert r.value.Keys == expected.Keys;
    assert r.value[x.user.id] == expected[x.user.id];
    assert r.value[y.user.id] == expected[y.user.id];
    assert r.value == expected;
  }

  /**
    The collision test compares whole names: once two users named "A" are
    listed as "A#1" and "A#2", a third "A" collides with nothing and is
    listed without a discriminator.
   */
  lemma ThirdNameStaysBare(how: DiscriminatorSource)
    ensures BuildNameMap(how, ThreeNamedA(), [InChannel("a"), InChannel("b"), InChannel("c")])
      == Some(map["a" := "A#1", "b" := "A#2", "c" := "A"])
  {
    var ms := ThreeNamedA();
    var s := [InChannel("a"), InChannel("b"), InChannel("c")];
    var s2 := s[..2];
    var s1 := s2[..1];
    assert s2 == [InChannel("a"), InChannel("b")] && s1 == [InChannel("a")] && s1[..0] == [];
    ThreeNamedASteps(how);
    assert BuildNameMap(how, ms, s1) == Some(map["a" := "A"]);
    assert BuildNameMap(how, ms, s2) == Some(map["a" := "A#1", "b" := "A#2"]);
  }

  /** Members "a", "b" and "c", all nicknamed "A", with discriminators 1, 2 and 3. */
  function ThreeNamedA(): Members
  {
    Members(map["a" := Alice(), "b" := Bob(), "c" := Carol()], map[])
  }

  lemma ThreeNamedASteps(how: DiscriminatorSource)
    ensures NameStep(how, ThreeNamedA(), map[], InChannel("a")) == Some(map["a" := "A"])
    ensures NameStep(how, ThreeNamedA(), map["a" := "A"], InChannel("b")) == Some(map["a" := "A#1", "b" := "A#2"])
    ensures NameStep(how, ThreeNamedA(), map["a" := "A#1", "b" := "A#2"], InChannel("c"))
      == Some(map["a" := "A#1", "b" := "A#2", "c" := "A"])
  {
    SecondNamedACollides(how);
    ThirdNamedAFree(how);
  }

  lemma SecondNamedACollides(how: DiscriminatorSource)
    ensures NameStep(how, ThreeNamedA(), map["a" := "A"], InChannel("b")) == Some(map["a" := "A#1", "b" := "A#2"])
  {
    var m1 := map["a" := "A"];
    assert "A" in m1.Values by { assert m1["a"] == "A"; }
    DisambiguatePair(how, ThreeNamedA(), Alice(), Bob());
    assert "A" + "#" + "1" == "A#1" && "A" + "#" + "2" == "A#2";
    assert m1["b" := "A"] == map["a" := "A", "b" := "A"];
  }

  lemma ThirdNamedAFree(how: DiscriminatorSource)
    ensures NameStep(how, ThreeNamedA(), map["a" := "A#1", "b" := "A#2"], InChannel("c"))
      == Some(map["a" := "A#1", "b" := "A#2", "c" := "A"])
  {
    var m2 := map["a" := "A#1", "b" := "A#2"];
    assert "A" !in m2.Values by {
      forall v | v in m2.Values ensures v != "A" {
        var k :| k in m2 && m2[k] == v;
      }
    }
    assert m2["c" := "A"] == map["a" := "A#1", "b" := "A#2", "c" := "A"];
  }

  /**
    The rewrite as written asks only the state cache: when the second "A"
    was found through the remote fallback, its own discriminator lookup
    fails and the Go code dereferences a nil member. With the fallback the
    two are listed as "A#1" and "A#2".
   */
  lemma StateOnlyRewriteFails()
    ensures var ms := Members(map["a" := Alice()], map["b" := Bob()]);
      var s := [InChannel("a"), InChannel("b")];
      && WellKeyed(ms)
      && BuildNameMap(StateOnly, ms, s) == None
      && BuildNameMap(WithFallback, ms, s) == Some(map["a" := "A#1", "b" := "A#2"])
  {
    var ms := Members(map["a" := Alice()], map["b" := Bob()]);
    var s := [InChannel("a"), InChannel("b")];
    assert s[..1] == [InChannel("a")];
    assert [InChannel("a")][..0] == [];
    var m1 := map["a" := "A"];
    assert BuildNameMap(StateOnly, ms, s[..1]) == Some(m1);
    assert BuildNameMap(WithFallback, ms, s[..1]) == Some(m1);
    assert "A" in m1.Values by { assert m1["a"] == "A"; }
    var inserted := map["a" := "A", "b" := "A"];
    assert !CanDisambiguate(StateOnly, ms, inserted, "A") by {
      assert inserted["b"] == "A" && "b" !in ms.state;
    }
    DisambiguatePair(WithFallback, ms, Alice(), Bob());
    assert "A" + "#" + "1" == "A#1" && "A" + "#" + "2" == "A#2";
    assert m1["b" := "A"] == inserted;
  }
}
