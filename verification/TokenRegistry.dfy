/** The registry of valid refresh tokens (backend-core/src/auth/token-store.service.ts): one expiring key
    per token and one expiring index set per user. */
module TokenRegistry {
  import opened Basics

  type Jti = nat

  datatype Tokens = Tokens(keys: map<Jti, Timed<Uuid>>, index: map<Uuid, Timed<set<Jti>>>)

  const NO_TOKENS: Tokens := Tokens(map[], map[])

  // ----- The operations, as functions of the two kinds of key -----

  /** SMEMBERS: an expired set reads as empty. */
  function Members(t: Tokens, user: Uuid, now: nat): set<Jti> {
    if user in t.index && t.index[user].Live(now) then t.index[user].value else {}
  }

  /** SET EX, SADD and EXPIRE in one MULTI. SADD on an expired set starts a new one. */
  function Save(t: Tokens, jti: Jti, user: Uuid, ttl: nat, now: nat): Tokens {
    Tokens(t.keys[jti := Timed(user, now + ttl)],
           t.index[user := Timed(Members(t, user, now) + {jti}, now + ttl)])
  }

  predicate IsValid(t: Tokens, jti: Jti, user: Uuid, now: nat) {
    jti in t.keys && t.keys[jti].Live(now) && t.keys[jti].value == user
  }

  function Revoke(t: Tokens, jti: Jti): Tokens {
    t.(keys := t.keys - {jti})
  }

  function RevokeMembers(t: Tokens, members: set<Jti>): Tokens {
    t.(keys := t.keys - members)
  }

  function DropIndex(t: Tokens, user: Uuid): Tokens {
    t.(index := t.index - {user})
  }

  /** SMEMBERS, DEL and DEL, with nothing in between and no fault. */
  function RevokeAllForUser(t: Tokens, user: Uuid, now: nat): Tokens {
    DropIndex(RevokeMembers(t, Members(t, user, now)), user)
  }

  datatype SweepReplies = SweepReplies(read: Reply, delete: Reply, drop: Reply)

  /** The same with faults: nothing is caught, so the first command that raises is the last. No keys are
      deleted when there are none. */
  function RevokeAllCommands(t: Tokens, user: Uuid, now: nat, replies: SweepReplies): (Tokens, bool) {
    var members := Members(t, user, now);
    if replies.read.Raised() then (t, true)
    else
      var deleted := if members != {} && replies.delete.Ran() then RevokeMembers(t, members) else t;
      if members != {} && replies.delete.Raised() then (deleted, true)
      else (if replies.drop.Ran() then DropIndex(deleted, user) else deleted, replies.drop.Raised())
  }

  /** The tokens that `isValid` accepts for a user. */
  function LiveTokens(t: Tokens, user: Uuid, now: nat): set<Jti> {
    set jti | jti in t.keys && IsValid(t, jti, user, now)
  }

  // ----- In place -----

  class TokenStore {
    var keys: map<Jti, Timed<Uuid>>
    var index: map<Uuid, Timed<set<Jti>>>
    var now: nat

    constructor ()
      ensures View() == NO_TOKENS && now == 0
    {
      keys, index, now := map[], map[], 0;
    }

    function View(): Tokens
      reads this
    {
      Tokens(keys, index)
    }

    method SaveToken(jti: Jti, user: Uuid, ttl: nat, reply: Reply) returns (raised: bool)
      modifies this`keys, this`index
      ensures View() == if reply.Ran() then Save(old(View()), jti, user, ttl, now) else old(View())
      ensures raised == reply.Raised()
    {
      if reply.Ran() {
        keys := keys[jti := Timed(user, now + ttl)];
        var members := if user in index && index[user].Live(now) then index[user].value else {};
        index := index[user := Timed(members + {jti}, now + ttl)];
      }
      raised := reply.Raised();
    }

    /** Fail-safe: what cannot be checked is not valid. */
    method CheckToken(jti: Jti, user: Uuid, reply: Reply) returns (valid: bool)
      ensures valid == (!reply.Raised() && IsValid(View(), jti, user, now))
    {
      if reply.Raised() {
        return false;
      }
      valid := jti in keys && keys[jti].Live(now) && keys[jti].value == user;
    }

    method RevokeToken(jti: Jti, reply: Reply) returns (raised: bool)
      modifies this`keys
      ensures View() == if reply.Ran() then Revoke(old(View()), jti) else old(View())
      ensures raised == reply.Raised()
    {
      if reply.Ran() {
        keys := keys - {jti};
      }
      raised := reply.Raised();
    }

    method RevokeAll(user: Uuid, replies: SweepReplies) returns (raised: bool)
      modifies this`keys, this`index
      ensures (View(), raised) == RevokeAllCommands(old(View()), user, now, replies)
    {
      if replies.read.Raised() {
        return true;
      }
      var jtis := if user in index && index[user].Live(now) then index[user].value else {};
      if jtis != {} {
        if replies.delete.Ran() {
          keys := keys - jtis;
        }
        if replies.delete.Raised() {
          return true;
        }
      }
      if replies.drop.Ran() {
        index := index - {user};
      }
      raised := replies.drop.Raised();
    }
  }

  // ----- The index covers every live token -----

  /** Each live key is in its user's live index set, which lasts at least as long. */
  ghost predicate Covered(t: Tokens, now: nat) {
    forall jti :: jti in t.keys && t.keys[jti].Live(now) ==>
      && jti in Members(t, t.keys[jti].value, now)
      && t.keys[jti].expiresAt <= t.index[t.keys[jti].value].expiresAt
  }

  /** The three commands of a global revocation are steps of their own; one that stops halfway, by a fault
      or a crash, is one whose later steps never come. */
  datatype StoreEvent =
    | SaveEvent(jti: Jti, user: Uuid)
    | RevokeEvent(jti: Jti)
    | ReadMembersEvent(user: Uuid)
    | DeleteKeysEvent(k: nat)
    | DropIndexEvent(k: nat)
    | WaitEvent(seconds: nat)

  datatype SweepPhase = HasRead | HasDeleted | HasDropped

  /** A global revocation under way: what SMEMBERS returned, and what was saved for its user since. */
  datatype Sweep = Sweep(user: Uuid, members: set<Jti>, since: set<Jti>, phase: SweepPhase)

  /** The store and the clock, under one TTL for all saves; `used` is every jti ever generated. */
  datatype StoreState = StoreState(tokens: Tokens, now: nat, used: set<Jti>, sweeps: seq<Sweep>)

  const EMPTY_STORE: StoreState := StoreState(NO_TOKENS, 0, {}, [])

  function Noted(sweep: Sweep, jti: Jti, user: Uuid): Sweep {
    if sweep.user == user then sweep.(since := sweep.since + {jti}) else sweep
  }

  predicate SweepIn(s: StoreState, k: nat, phase: SweepPhase) {
    k < |s.sweeps| && s.sweeps[k].phase == phase
  }

  function StoreStep(ttl: nat, s: StoreState, event: StoreEvent): StoreState {
    match event
    case SaveEvent(jti, user) =>
      if jti in s.used then s
      else
        s.(tokens := Save(s.tokens, jti, user, ttl, s.now), used := s.used + {jti},
           sweeps := seq(|s.sweeps|, k requires 0 <= k < |s.sweeps| => Noted(s.sweeps[k], jti, user)))
    case RevokeEvent(jti) => s.(tokens := Revoke(s.tokens, jti))
    case ReadMembersEvent(user) => s.(sweeps := s.sweeps + [Sweep(user, Members(s.tokens, user, s.now), {}, HasRead)])
    case DeleteKeysEvent(k) =>
      if !SweepIn(s, k, HasRead) then s
      else s.(tokens := RevokeMembers(s.tokens, s.sweeps[k].members), sweeps := s.sweeps[k := s.sweeps[k].(phase := HasDeleted)])
    case DropIndexEvent(k) =>
      if !SweepIn(s, k, HasDeleted) then s
      else s.(tokens := DropIndex(s.tokens, s.sweeps[k].user), sweeps := s.sweeps[k := s.sweeps[k].(phase := HasDropped)])
    case WaitEvent(seconds) => s.(now := s.now + seconds)
  }

  function RunStore(ttl: nat, events: seq<StoreEvent>): StoreState {
    if events == [] then EMPTY_STORE
    else StoreStep(ttl, RunStore(ttl, events[..|events| - 1]), events[|events| - 1])
  }

  /** With the one TTL that tokens are issued with, nothing outlives the newest save. */
  ghost predicate ExpireInTime(t: Tokens, horizon: nat) {
    forall jti :: jti in t.keys ==> t.keys[jti].expiresAt <= horizon
  }

  /** A save keeps the index covering exactly when it does not shorten the index below another live
      token of the same user: the condition that the constant TTL of `issueTokens` meets. */
  lemma SaveKeepsCoverIff(t: Tokens, jti: Jti, user: Uuid, ttl: nat, now: nat)
    requires Covered(t, now)
    ensures Covered(Save(t, jti, user, ttl, now), now) <==>
      forall other :: other in t.keys && other != jti && IsValid(t, other, user, now) ==> t.keys[other].expiresAt <= now + ttl
  {
    var t' := Save(t, jti, user, ttl, now);
    if Covered(t', now) {
      forall other | other in t.keys && other != jti && IsValid(t, other, user, now)
        ensures t.keys[other].expiresAt <= now + ttl
      {
        assert t'.keys[other] == t.keys[other];
      }
    }
  }

  /** What a sweep has still to reach: a live token of its user that it has neither read nor deleted was
      saved after it read. */
  ghost predicate SweepSound(s: StoreState, sweep: Sweep) {
    match sweep.phase
    case HasRead => LiveTokens(s.tokens, sweep.user, s.now) <= sweep.members + sweep.since
    case HasDeleted => LiveTokens(s.tokens, sweep.user, s.now) <= sweep.since
    case HasDropped => true
  }

  ghost predicate SweepsSound(s: StoreState) {
    forall k :: 0 <= k < |s.sweeps| ==> SweepSound(s, s.sweeps[k])
  }

  /** The step does not drop the index of a token that was saved since the sweep read it and is still live. */
  ghost predicate DropsNoLiveSave(s: StoreState, event: StoreEvent) {
    event.DropIndexEvent? && SweepIn(s, event.k, HasDeleted) ==>
      s.sweeps[event.k].since !! LiveTokens(s.tokens, s.sweeps[event.k].user, s.now)
  }

  lemma DropKeepsCoverIff(ttl: nat, s: StoreState, k: nat)
    requires Covered(s.tokens, s.now) && SweepsSound(s) && SweepIn(s, k, HasDeleted)
    ensures Covered(StoreStep(ttl, s, DropIndexEvent(k)).tokens, s.now) <==> DropsNoLiveSave(s, DropIndexEvent(k))
  {
    var (sweep, s') := (s.sweeps[k], StoreStep(ttl, s, DropIndexEvent(k)));
    assert SweepSound(s, sweep);
    if DropsNoLiveSave(s, DropIndexEvent(k)) {
      assert LiveTokens(s.tokens, sweep.user, s.now) == {};
      forall jti | jti in s'.tokens.keys && s'.tokens.keys[jti].Live(s.now)
        ensures s'.tokens.keys[jti].value != sweep.user
      {
        assert jti !in LiveTokens(s.tokens, sweep.user, s.now);
      }
    } else {
      var jti :| jti in sweep.since && jti in LiveTokens(s.tokens, sweep.user, s.now);
      assert jti in s'.tokens.keys && jti !in Members(s'.tokens, sweep.user, s.now);
    }
  }

  lemma StoreStepKeepsCoverIff(ttl: nat, s: StoreState, event: StoreEvent)
    requires Covered(s.tokens, s.now) && ExpireInTime(s.tokens, s.now + ttl) && SweepsSound(s)
    ensures var s' := StoreStep(ttl, s, event);
      && (Covered(s'.tokens, s'.now) <==> DropsNoLiveSave(s, event))
      && ExpireInTime(s'.tokens, s'.now + ttl)
  {
    match event
    case SaveEvent(jti, user) => SaveKeepsCoverIff(s.tokens, jti, user, ttl, s.now);
    case DropIndexEvent(k) => if SweepIn(s, k, HasDeleted) { DropKeepsCoverIff(ttl, s, k); }
    case _ =>
  }

  /** A step makes no token live but the one it saves, and deletes what its sweep has read. */
  lemma LiveTokensAfterStep(ttl: nat, s: StoreState, event: StoreEvent, user: Uuid)
    ensures var s' := StoreStep(ttl, s, event);
      && LiveTokens(s'.tokens, user, s'.now) <= LiveTokens(s.tokens, user, s.now)
           + (if event.SaveEvent? && event.jti !in s.used && event.user == user then {event.jti} else {})
      && (event.DeleteKeysEvent? && SweepIn(s, event.k, HasRead) ==>
            s.sweeps[event.k].members !! LiveTokens(s'.tokens, user, s'.now))
  {
  }

  lemma StoreStepKeepsSweeps(ttl: nat, s: StoreState, event: StoreEvent)
    requires Covered(s.tokens, s.now) && SweepsSound(s)
    ensures SweepsSound(StoreStep(ttl, s, event))
  {
    var s' := StoreStep(ttl, s, event);
    forall k | 0 <= k < |s'.sweeps| ensures SweepSound(s', s'.sweeps[k]) {
      if k < |s.sweeps| {
        assert SweepSound(s, s.sweeps[k]);
      }
      LiveTokensAfterStep(ttl, s, event, s'.sweeps[k].user);
    }
  }

  /** The index has covered every live token at every instant of the run. */
  ghost predicate AlwaysCovered(ttl: nat, events: seq<StoreEvent>) {
    var s := RunStore(ttl, events);
    Covered(s.tokens, s.now) && (events != [] ==> AlwaysCovered(ttl, events[..|events| - 1]))
  }

  ghost predicate NeverDropsLiveSave(ttl: nat, events: seq<StoreEvent>) {
    events != [] ==>
      && NeverDropsLiveSave(ttl, events[..|events| - 1])
      && DropsNoLiveSave(RunStore(ttl, events[..|events| - 1]), events[|events| - 1])
  }

  lemma {:induction false} CoveredRunIsSound(ttl: nat, events: seq<StoreEvent>)
    requires AlwaysCovered(ttl, events)
    ensures var s := RunStore(ttl, events);
      Covered(s.tokens, s.now) && ExpireInTime(s.tokens, s.now + ttl) && SweepsSound(s)
  {
    if events != [] {
      var (before, event) := (RunStore(ttl, events[..|events| - 1]), events[|events| - 1]);
      CoveredRunIsSound(ttl, events[..|events| - 1]);
      StoreStepKeepsCoverIff(ttl, before, event);
      StoreStepKeepsSweeps(ttl, before, event);
    }
  }

  /** Over every run of saves with one TTL, revocations, interleaved global revocations and waits: the index
      covers every live token at every instant if and only if no global revocation drops the index of a token
      that was saved after it read the members and is still live. */
  lemma {:induction false} IndexCoversLiveTokensIff(ttl: nat, events: seq<StoreEvent>)
    ensures AlwaysCovered(ttl, events) <==> NeverDropsLiveSave(ttl, events)
  {
    if events != [] {
      var earlier := events[..|events| - 1];
      IndexCoversLiveTokensIff(ttl, earlier);
      if AlwaysCovered(ttl, earlier) {
        CoveredRunIsSound(ttl, earlier);
        StoreStepKeepsCoverIff(ttl, RunStore(ttl, earlier), events[|events| - 1]);
      }
    }
  }

  /** A login between the SMEMBERS and the last DEL of a revocation of everything: it stays valid, and its user
      has no index. */
  lemma InterleavedSaveLosesCover(ttl: nat, user: Uuid)
    requires ttl > 0
    ensures var s := RunStore(ttl, [SaveEvent(1, user), ReadMembersEvent(user), SaveEvent(2, user), DeleteKeysEvent(0), DropIndexEvent(0)]);
      IsValid(s.tokens, 2, user, s.now) && Members(s.tokens, user, s.now) == {} && !Covered(s.tokens, s.now)
  {
    var (e1, e2, e3, e4, e5) := (SaveEvent(1, user), ReadMembersEvent(user), SaveEvent(2, user), DeleteKeysEvent(0), DropIndexEvent(0));
    var s1 := StoreStep(ttl, EMPTY_STORE, e1);
    var s2 := StoreStep(ttl, s1, e2);
    assert Members(s1.tokens, user, 0) == {1};
    assert s2.sweeps == [Sweep(user, {1}, {}, HasRead)];
    var s3 := StoreStep(ttl, s2, e3);
    assert Noted(s2.sweeps[0], 2, user).since == {2};
    assert s3.sweeps == [Sweep(user, {1}, {2}, HasRead)];
    var s4 := StoreStep(ttl, s3, e4);
    var s5 := StoreStep(ttl, s4, e5);
    assert [e1, e2, e3, e4, e5][..4] == [e1, e2, e3, e4] && [e1, e2, e3, e4][..3] == [e1, e2, e3];
    assert [e1, e2, e3][..2] == [e1, e2] && [e1, e2][..1] == [e1] && [e1][..0] == [];
    assert RunStore(ttl, [e1]) == s1;
    assert RunStore(ttl, [e1, e2]) == s2;
    assert RunStore(ttl, [e1, e2, e3]) == s3;
    assert RunStore(ttl, [e1, e2, e3, e4]) == s4;
    assert 2 in s5.tokens.keys;
  }

  /** No save of its user falls between a sweep's SMEMBERS and its last DEL. */
  ghost predicate Undisturbed(ttl: nat, events: seq<StoreEvent>) {
    events != [] ==>
      && Undisturbed(ttl, events[..|events| - 1])
      && var (s, event) := (RunStore(ttl, events[..|events| - 1]), events[|events| - 1]);
         event.DropIndexEvent? && SweepIn(s, event.k, HasDeleted) ==> s.sweeps[event.k].since == {}
  }

  lemma {:induction false} UndisturbedDropsNothing(ttl: nat, events: seq<StoreEvent>)
    requires Undisturbed(ttl, events)
    ensures NeverDropsLiveSave(ttl, events)
  {
    if events != [] {
      UndisturbedDropsNothing(ttl, events[..|events| - 1]);
    }
  }

  lemma UndisturbedRunsStayCovered(ttl: nat, events: seq<StoreEvent>)
    requires Undisturbed(ttl, events)
    ensures AlwaysCovered(ttl, events)
  {
    UndisturbedDropsNothing(ttl, events);
    IndexCoversLiveTokensIff(ttl, events);
  }

  // ----- Global revocation -----

  function SaveAll(t: Tokens, jtis: seq<Jti>, user: Uuid, ttl: nat, now: nat): Tokens {
    if jtis == [] then t else Save(SaveAll(t, jtis[..|jtis| - 1], user, ttl, now), jtis[|jtis| - 1], user, ttl, now)
  }

  lemma SavedIsLive(t: Tokens, jti: Jti, user: Uuid, ttl: nat, now: nat)
    requires ttl > 0
    ensures LiveTokens(Save(t, jti, user, ttl, now), user, now) == LiveTokens(t, user, now) + {jti}
  {
    var t' := Save(t, jti, user, ttl, now);
    forall other ensures other in LiveTokens(t', user, now) <==> other in LiveTokens(t, user, now) || other == jti {
      if other != jti && other in t.keys {
        assert t'.keys[other] == t.keys[other];
      }
    }
  }

  lemma RevokedAreNotLive(t: Tokens, members: set<Jti>, user: Uuid, now: nat)
    ensures LiveTokens(RevokeMembers(t, members), user, now) == LiveTokens(t, user, now) - members
  {
    var t' := RevokeMembers(t, members);
    forall jti ensures jti in LiveTokens(t', user, now) <==> jti in LiveTokens(t, user, now) && jti !in members {
      if jti in t'.keys {
        assert t'.keys[jti] == t.keys[jti];
      }
    }
  }

  lemma {:induction false} SavedAreLive(t: Tokens, jtis: seq<Jti>, user: Uuid, ttl: nat, now: nat)
    requires ttl > 0
    ensures LiveTokens(SaveAll(t, jtis, user, ttl, now), user, now) == LiveTokens(t, user, now) + set jti | jti in jtis
  {
    if jtis != [] {
      var n := |jtis| - 1;
      SavedAreLive(t, jtis[..n], user, ttl, now);
      assert jtis == jtis[..n] + [jtis[n]];
      SavedIsLive(SaveAll(t, jtis[..n], user, ttl, now), jtis[n], user, ttl, now);
      assert (set jti | jti in jtis) == (set jti | jti in jtis[..n]) + {jtis[n]};
    }
  }

  /** Global revocation with saves of fresh tokens for the same user between SMEMBERS and the DELs:
      exactly those tokens survive, and the next global revocation finds nothing. So it leaves no valid token
      if and only if nothing interleaved. */
  lemma RevokeAllLeavesInterleavedSaves(t: Tokens, user: Uuid, ttl: nat, now: nat, interleaved: seq<Jti>)
    requires Covered(t, now) && ttl > 0
    requires forall jti :: jti in interleaved ==> jti !in Members(t, user, now)
    ensures var after := DropIndex(RevokeMembers(SaveAll(t, interleaved, user, ttl, now), Members(t, user, now)), user);
      && LiveTokens(after, user, now) == (set jti | jti in interleaved)
      && (LiveTokens(after, user, now) == {} <==> interleaved == [])
      && RevokeAllForUser(after, user, now) == after
  {
    SavedAreLive(t, interleaved, user, ttl, now);
    var saved := SaveAll(t, interleaved, user, ttl, now);
    var members := Members(t, user, now);
    var after := DropIndex(RevokeMembers(saved, members), user);
    assert LiveTokens(t, user, now) <= members;
    RevokedAreNotLive(saved, members, user, now);
    assert LiveTokens(after, user, now) == LiveTokens(RevokeMembers(saved, members), user, now);
    if interleaved != [] {
      assert interleaved[0] in LiveTokens(after, user, now);
    }
  }

  lemma SameKeysSameTokens(t: Tokens, t': Tokens, user: Uuid, now: nat)
    ensures t.keys == t'.keys ==> LiveTokens(t, user, now) == LiveTokens(t', user, now)
  {
  }

  /** A global revocation that does not raise leaves no valid token; one that raises has left all of them
      or none. */
  lemma RevokeAllOrRaises(t: Tokens, user: Uuid, now: nat, replies: SweepReplies)
    requires Covered(t, now)
    ensures var (t', raised) := RevokeAllCommands(t, user, now, replies);
      && (!raised ==> LiveTokens(t', user, now) == {})
      && (LiveTokens(t', user, now) == {} || LiveTokens(t', user, now) == LiveTokens(t, user, now))
  {
    var members := Members(t, user, now);
    assert LiveTokens(t, user, now) <= members;
    RevokedAreNotLive(t, members, user, now);
    var t' := RevokeAllCommands(t, user, now, replies).0;
    assert t'.keys == t.keys || t'.keys == RevokeMembers(t, members).keys;
    SameKeysSameTokens(t', t, user, now);
    SameKeysSameTokens(t', RevokeMembers(t, members), user, now);
  }

  ghost predicate OwnedBy(s: StoreState, jtis: set<Jti>, user: Uuid) {
    forall jti :: jti in jtis ==> jti in s.used && (jti in s.tokens.keys ==> s.tokens.keys[jti].value == user)
  }

  /** A jti belongs to one user for good. */
  ghost predicate Owned(s: StoreState) {
    && s.tokens.keys.Keys <= s.used
    && (forall user :: user in s.tokens.index ==> OwnedBy(s, s.tokens.index[user].value, user))
    && (forall k :: 0 <= k < |s.sweeps| ==> OwnedBy(s, s.sweeps[k].members + s.sweeps[k].since, s.sweeps[k].user))
  }

  lemma StoreStepKeepsOwned(ttl: nat, s: StoreState, event: StoreEvent)
    requires Owned(s)
    ensures Owned(StoreStep(ttl, s, event))
  {
    var s' := StoreStep(ttl, s, event);
    forall user | user in s'.tokens.index ensures OwnedBy(s', s'.tokens.index[user].value, user) {
      if user in s.tokens.index {
        assert OwnedBy(s, s.tokens.index[user].value, user);
      }
    }
    forall k | 0 <= k < |s'.sweeps| ensures OwnedBy(s', s'.sweeps[k].members + s'.sweeps[k].since, s'.sweeps[k].user) {
      if k < |s.sweeps| {
        assert OwnedBy(s, s.sweeps[k].members + s.sweeps[k].since, s.sweeps[k].user);
      }
    }
  }

  lemma {:induction false} RunKeepsOwned(ttl: nat, events: seq<StoreEvent>)
    ensures Owned(RunStore(ttl, events))
  {
    if events != [] {
      RunKeepsOwned(ttl, events[..|events| - 1]);
      StoreStepKeepsOwned(ttl, RunStore(ttl, events[..|events| - 1]), events[|events| - 1]);
    }
  }

  /** After any run in which the index stayed covering, a global revocation with nothing in between takes
      every token of its user and none of anybody else. */
  lemma RevokeAllIsExact(ttl: nat, events: seq<StoreEvent>, user: Uuid, other: Uuid)
    requires NeverDropsLiveSave(ttl, events)
    ensures var s := RunStore(ttl, events);
      LiveTokens(RevokeAllForUser(s.tokens, user, s.now), other, s.now)
      == if other == user then {} else LiveTokens(s.tokens, other, s.now)
  {
    var s := RunStore(ttl, events);
    IndexCoversLiveTokensIff(ttl, events);
    RunKeepsOwned(ttl, events);
    assert user in s.tokens.index ==> OwnedBy(s, s.tokens.index[user].value, user);
    RevokedAreNotLive(s.tokens, Members(s.tokens, user, s.now), other, s.now);
    SameKeysSameTokens(RevokeAllForUser(s.tokens, user, s.now), RevokeMembers(s.tokens, Members(s.tokens, user, s.now)), other, s.now);
  }

  // ----- What escapes one global revocation escapes them all -----

  /** The token is stored, and neither an index nor a sweep that has yet to delete knows it. */
  ghost predicate Forgotten(s: StoreState, jti: Jti) {
    && jti in s.used && jti in s.tokens.keys
    && (forall user :: user in s.tokens.index ==> jti !in s.tokens.index[user].value)
    && (forall k :: 0 <= k < |s.sweeps| && s.sweeps[k].phase.HasRead? ==> jti !in s.sweeps[k].members)
  }

  lemma StepKeepsForgotten(ttl: nat, s: StoreState, event: StoreEvent, jti: Jti)
    requires Forgotten(s, jti) && event != RevokeEvent(jti)
    ensures Forgotten(StoreStep(ttl, s, event), jti)
    ensures StoreStep(ttl, s, event).tokens.keys[jti] == s.tokens.keys[jti]
  {
  }

  lemma RunStoreAppend(ttl: nat, before: seq<StoreEvent>, after: seq<StoreEvent>)
    requires after != []
    ensures RunStore(ttl, before + after) == StoreStep(ttl, RunStore(ttl, before + after[..|after| - 1]), after[|after| - 1])
  {
    assert (before + after)[..|before + after| - 1] == before + after[..|after| - 1];
  }

  lemma {:induction false} ForgottenTokensStay(ttl: nat, before: seq<StoreEvent>, after: seq<StoreEvent>, jti: Jti)
    requires Forgotten(RunStore(ttl, before), jti) && RevokeEvent(jti) !in after
    ensures Forgotten(RunStore(ttl, before + after), jti)
    ensures RunStore(ttl, before + after).tokens.keys[jti] == RunStore(ttl, before).tokens.keys[jti]
    decreases |after|
  {
    if after == [] {
      assert before + after == before;
    } else {
      var (shorter, last) := (after[..|after| - 1], after[|after| - 1]);
      ForgottenTokensStay(ttl, before, shorter, jti);
      StepKeepsForgotten(ttl, RunStore(ttl, before + shorter), last, jti);
      RunStoreAppend(ttl, before, after);
    }
  }

  /** When a sweep drops the index of a live token saved since it read, and no other sweep has just read that
      token, then no later global revocation ever reaches it: whatever follows, short of revoking the very
      token, it stays valid until it expires. */
  lemma SurvivorsEscapeRevocation(ttl: nat, before: seq<StoreEvent>, k: nat, jti: Jti, after: seq<StoreEvent>)
    requires var s := RunStore(ttl, before);
      && SweepIn(s, k, HasDeleted) && jti in s.sweeps[k].since && jti in s.tokens.keys
      && forall i :: 0 <= i < |s.sweeps| && s.sweeps[i].phase.HasRead? ==> jti !in s.sweeps[i].members
    requires RevokeEvent(jti) !in after
    ensures var (s, s') := (RunStore(ttl, before), RunStore(ttl, before + [DropIndexEvent(k)] + after));
      && jti in s'.tokens.keys && s'.tokens.keys[jti] == s.tokens.keys[jti]
      && forall user :: jti !in Members(s'.tokens, user, s'.now)
  {
    var (s, dropped) := (RunStore(ttl, before), before + [DropIndexEvent(k)]);
    RunKeepsOwned(ttl, before);
    RunStoreAppend(ttl, before, [DropIndexEvent(k)]);
    assert before + [DropIndexEvent(k)][..0] == before;
    assert OwnedBy(s, s.sweeps[k].members + s.sweeps[k].since, s.sweeps[k].user);
    forall user | user in s.tokens.index && user != s.sweeps[k].user ensures jti !in s.tokens.index[user].value {
      assert OwnedBy(s, s.tokens.index[user].value, user);
    }
    ForgottenTokensStay(ttl, dropped, after, jti);
  }

  // ----- How long a token lives -----

  predicate Takes(s: StoreState, event: StoreEvent, jti: Jti) {
    || event == RevokeEvent(jti)
    || (event.DeleteKeysEvent? && SweepIn(s, event.k, HasRead) && jti in s.sweeps[event.k].members)
  }

  /** Since the token was saved, nothing revoked it: not by itself, and not in a sweep that had read it. */
  ghost predicate Untouched(ttl: nat, saved: seq<StoreEvent>, after: seq<StoreEvent>, jti: Jti)
    decreases |after|
  {
    after != [] ==>
      && Untouched(ttl, saved, after[..|after| - 1], jti)
      && !Takes(RunStore(ttl, saved + after[..|after| - 1]), after[|after| - 1], jti)
  }

  lemma StepTakesExactly(ttl: nat, s: StoreState, event: StoreEvent, jti: Jti)
    requires jti in s.used
    ensures var s' := StoreStep(ttl, s, event);
      && jti in s'.used
      && (jti in s'.tokens.keys <==> jti in s.tokens.keys && !Takes(s, event, jti))
      && (jti in s'.tokens.keys ==> s'.tokens.keys[jti] == s.tokens.keys[jti])
  {
  }

  lemma {:induction false} SavedTokenStays(ttl: nat, saved: seq<StoreEvent>, after: seq<StoreEvent>, jti: Jti)
    requires jti in RunStore(ttl, saved).used && jti in RunStore(ttl, saved).tokens.keys
    ensures var s' := RunStore(ttl, saved + after);
      && jti in s'.used
      && (jti in s'.tokens.keys <==> Untouched(ttl, saved, after, jti))
      && (jti in s'.tokens.keys ==> s'.tokens.keys[jti] == RunStore(ttl, saved).tokens.keys[jti])
    decreases |after|
  {
    if after == [] {
      assert saved + after == saved;
    } else {
      var (earlier, last) := (after[..|after| - 1], after[|after| - 1]);
      SavedTokenStays(ttl, saved, earlier, jti);
      StepTakesExactly(ttl, RunStore(ttl, saved + earlier), last, jti);
      RunStoreAppend(ttl, saved, after);
    }
  }

  /** Over every run: a saved token is valid for its user, and for nobody else, exactly until its TTL has
      passed since the save, unless it was revoked; and once revoked it never is again. */
  lemma TokenLivesItsTtl(ttl: nat, before: seq<StoreEvent>, jti: Jti, user: Uuid, after: seq<StoreEvent>, who: Uuid)
    requires jti !in RunStore(ttl, before).used
    ensures var (saved, s) := (before + [SaveEvent(jti, user)], RunStore(ttl, before));
      var s' := RunStore(ttl, saved + after);
      IsValid(s'.tokens, jti, who, s'.now) <==> who == user && s'.now < s.now + ttl && Untouched(ttl, saved, after, jti)
  {
    var saved := before + [SaveEvent(jti, user)];
    RunStoreAppend(ttl, before, [SaveEvent(jti, user)]);
    assert before + [SaveEvent(jti, user)][..0] == before;
    SavedTokenStays(ttl, saved, after, jti);
  }

  // ----- How long an index lives -----

  /** No index outlives a save made now. */
  ghost predicate IndexInTime(ttl: nat, s: StoreState) {
    forall user :: user in s.tokens.index ==> s.tokens.index[user].expiresAt <= s.now + ttl
  }

  lemma {:induction false} RunKeepsIndexInTime(ttl: nat, events: seq<StoreEvent>)
    ensures IndexInTime(ttl, RunStore(ttl, events))
  {
    if events != [] {
      RunKeepsIndexInTime(ttl, events[..|events| - 1]);
    }
  }

  lemma StepKeepsOthersIndex(ttl: nat, s: StoreState, event: StoreEvent, user: Uuid)
    requires event.SaveEvent? ==> event.user != user
    ensures var s' := StoreStep(ttl, s, event);
      user in s'.tokens.index ==> user in s.tokens.index && s'.tokens.index[user] == s.tokens.index[user]
  {
  }

  lemma {:induction false} QuietIndexStays(ttl: nat, before: seq<StoreEvent>, quiet: seq<StoreEvent>, user: Uuid)
    requires forall e :: e in quiet && e.SaveEvent? ==> e.user != user
    ensures var (s, s') := (RunStore(ttl, before), RunStore(ttl, before + quiet));
      user in s'.tokens.index ==> user in s.tokens.index && s'.tokens.index[user] == s.tokens.index[user]
    decreases |quiet|
  {
    if quiet == [] {
      assert before + quiet == before;
    } else {
      var (earlier, last) := (quiet[..|quiet| - 1], quiet[|quiet| - 1]);
      assert last in quiet;
      QuietIndexStays(ttl, before, earlier, user);
      StepKeepsOthersIndex(ttl, RunStore(ttl, before + earlier), last, user);
      RunStoreAppend(ttl, before, quiet);
    }
  }

  /** A whole TTL after a user's last save, SMEMBERS finds nothing for that user. */
  lemma IndexLapses(ttl: nat, before: seq<StoreEvent>, quiet: seq<StoreEvent>, user: Uuid)
    requires forall e :: e in quiet && e.SaveEvent? ==> e.user != user
    requires RunStore(ttl, before + quiet).now >= RunStore(ttl, before).now + ttl
    ensures Members(RunStore(ttl, before + quiet).tokens, user, RunStore(ttl, before + quiet).now) == {}
  {
    RunKeepsIndexInTime(ttl, before);
    QuietIndexStays(ttl, before, quiet, user);
  }
}
