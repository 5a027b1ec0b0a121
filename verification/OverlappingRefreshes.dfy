/** Rotations that overlap: `isValid`, `revoke` and `save` of one refresh call are separate commands
    (backend-core/src/auth/auth.service.ts), so two calls may pass the check with the same token. */
module OverlappingRefreshes {
  import opened Basics
  import opened TokenRegistry
  import Sessions

  /** A call is known by the token it presented: those that passed the check, those that have revoked it,
      and those answered with a new pair. */
  datatype Rotations = Rotations(store: StoreState, checked: multiset<Jti>, revoked: multiset<Jti>, accepted: multiset<Jti>)

  const NO_ROTATIONS: Rotations := Rotations(EMPTY_STORE, multiset{}, multiset{}, multiset{})

  datatype Event =
    | Elsewhere(change: StoreEvent)
    | Check(jti: Jti, reply: Reply)
    | Revokes(jti: Jti, reply: Reply)
    | Issues(jti: Jti, newJti: Jti, userExists: bool, reply: Reply)

  function InFlight(s: Rotations, jti: Jti): nat {
    s.checked[jti] + s.revoked[jti]
  }

  function Store(s: Rotations, change: StoreEvent): StoreState {
    StoreStep(Sessions.REFRESH_TTL_SECONDS, s.store, change)
  }

  /** At most `overlap` calls present one token at a time; `owner` is the user each token is signed for. */
  function Step(overlap: nat, owner: Jti -> Uuid, s: Rotations, event: Event): Rotations {
    match event
    case Elsewhere(change) => s.(store := Store(s, change))
    case Check(jti, reply) =>
      if reply.Raised() || InFlight(s, jti) >= overlap || !IsValid(s.store.tokens, jti, owner(jti), s.store.now) then s
      else s.(checked := s.checked + multiset{jti})
    case Revokes(jti, reply) =>
      if s.checked[jti] == 0 then s
      else
        Rotations(if reply.Ran() then Store(s, RevokeEvent(jti)) else s.store,
                  s.checked - multiset{jti},
                  if reply.Raised() then s.revoked else s.revoked + multiset{jti},
                  s.accepted)
    case Issues(jti, newJti, userExists, reply) =>
      if s.revoked[jti] == 0 || newJti in s.store.used || owner(newJti) != owner(jti) then s
      else
        Rotations(if userExists && reply.Ran() then Store(s, SaveEvent(newJti, owner(jti))) else s.store,
                  s.checked,
                  s.revoked - multiset{jti},
                  if userExists && !reply.Raised() then s.accepted + multiset{jti} else s.accepted)
  }

  function Run(overlap: nat, owner: Jti -> Uuid, events: seq<Event>): Rotations {
    if events == [] then NO_ROTATIONS
    else Step(overlap, owner, Run(overlap, owner, events[..|events| - 1]), events[|events| - 1])
  }

  // ----- A token is accepted at most as often as calls overlap -----

  /** A stored token has not been accepted nor revoked by a call. */
  ghost predicate Bounded(overlap: nat, s: Rotations, jti: Jti) {
    && s.accepted[jti] + InFlight(s, jti) <= overlap
    && (jti in s.store.tokens.keys ==> s.accepted[jti] == 0 && s.revoked[jti] == 0)
    && (s.accepted[jti] + InFlight(s, jti) > 0 ==> jti in s.store.used)
    && (jti in s.store.tokens.keys ==> jti in s.store.used)
  }

  /** What any change does to one token of the registry. */
  lemma StoreKeepsUsed(s: Rotations, change: StoreEvent, jti: Jti)
    ensures jti in s.store.used ==> jti in Store(s, change).used
    ensures jti in Store(s, change).tokens.keys ==>
      jti in s.store.tokens.keys || (change.SaveEvent? && change.jti == jti && jti !in s.store.used && jti in Store(s, change).used)
    ensures change == RevokeEvent(jti) ==> jti !in Store(s, change).tokens.keys
  {
  }

  lemma RevokesKeepsBounded(overlap: nat, owner: Jti -> Uuid, s: Rotations, event: Event, jti: Jti)
    requires Bounded(overlap, s, jti) && event.Revokes?
    ensures Bounded(overlap, Step(overlap, owner, s, event), jti)
  {
    StoreKeepsUsed(s, RevokeEvent(event.jti), jti);
  }

  lemma IssuesKeepsBounded(overlap: nat, owner: Jti -> Uuid, s: Rotations, event: Event, jti: Jti)
    requires Bounded(overlap, s, jti) && event.Issues?
    ensures Bounded(overlap, Step(overlap, owner, s, event), jti)
  {
    StoreKeepsUsed(s, SaveEvent(event.newJti, owner(event.jti)), jti);
  }

  lemma StepKeepsBounded(overlap: nat, owner: Jti -> Uuid, s: Rotations, event: Event, jti: Jti)
    requires Bounded(overlap, s, jti)
    ensures Bounded(overlap, Step(overlap, owner, s, event), jti)
  {
    match event
    case Elsewhere(change) => StoreKeepsUsed(s, change, jti);
    case Check(_, _) =>
    case Revokes(_, _) => RevokesKeepsBounded(overlap, owner, s, event, jti);
    case Issues(_, _, _, _) => IssuesKeepsBounded(overlap, owner, s, event, jti);
  }

  /** In every interleaving of refresh calls with each other and with the rest of the registry's life, one
      token is accepted at most as often as calls presenting it overlap: once, if they never do. */
  lemma {:induction false} AcceptedAtMostOverlap(overlap: nat, owner: Jti -> Uuid, events: seq<Event>, jti: Jti)
    ensures Bounded(overlap, Run(overlap, owner, events), jti)
    ensures Run(overlap, owner, events).accepted[jti] <= overlap
  {
    if events != [] {
      AcceptedAtMostOverlap(overlap, owner, events[..|events| - 1], jti);
      StepKeepsBounded(overlap, owner, Run(overlap, owner, events[..|events| - 1]), events[|events| - 1], jti);
    }
  }

  // ----- The bound is reached -----

  lemma RunAppend(overlap: nat, owner: Jti -> Uuid, events: seq<Event>, event: Event)
    ensures Run(overlap, owner, events + [event]) == Step(overlap, owner, Run(overlap, owner, events), event)
  {
    assert (events + [event])[..|events|] == events;
  }

  function Checks(n: nat): seq<Event> {
    if n == 0 then [Elsewhere(SaveEvent(0, 0))] else Checks(n - 1) + [Check(0, Answered)]
  }

  /** After `overlap` checks of token 0, as many revocations, `n` of them so far. */
  function ChecksAndRevokes(overlap: nat, n: nat): seq<Event> {
    if n == 0 then Checks(overlap) else ChecksAndRevokes(overlap, n - 1) + [Revokes(0, Answered)]
  }

  /** And then as many new pairs, `n` of them so far. */
  function Race(overlap: nat, n: nat): seq<Event> {
    if n == 0 then ChecksAndRevokes(overlap, overlap) else Race(overlap, n - 1) + [Issues(0, n, true, Answered)]
  }

  const ONE_USER: Jti -> Uuid := jti => 0

  predicate Stage(s: Rotations, checked: nat, revoked: nat, accepted: nat) {
    && s.checked[0] == checked && s.revoked[0] == revoked && s.accepted[0] == accepted && s.store.now == 0
    && (forall jti :: jti in s.store.used ==> jti <= accepted)
  }

  predicate HasOneToken(s: Rotations, checked: nat) {
    Stage(s, checked, 0, 0) && IsValid(s.store.tokens, 0, 0, s.store.now)
  }

  lemma OneToken(overlap: nat)
    ensures HasOneToken(Step(overlap, ONE_USER, NO_ROTATIONS, Elsewhere(SaveEvent(0, 0))), 0)
  {
  }

  lemma OneChecks(overlap: nat, s: Rotations, n: nat)
    requires 1 <= n <= overlap && HasOneToken(s, n - 1)
    ensures HasOneToken(Step(overlap, ONE_USER, s, Check(0, Answered)), n)
  {
  }

  lemma {:induction false} AllCheck(overlap: nat, n: nat)
    requires n <= overlap
    ensures HasOneToken(Run(overlap, ONE_USER, Checks(n)), n)
  {
    if n == 0 {
      OneToken(overlap);
      RunAppend(overlap, ONE_USER, [], Elsewhere(SaveEvent(0, 0)));
      assert [] + [Elsewhere(SaveEvent(0, 0))] == Checks(0);
    } else {
      AllCheck(overlap, n - 1);
      OneChecks(overlap, Run(overlap, ONE_USER, Checks(n - 1)), n);
      RunAppend(overlap, ONE_USER, Checks(n - 1), Check(0, Answered));
    }
  }

  lemma OneRevokes(overlap: nat, s: Rotations, n: nat)
    requires 1 <= n <= overlap && Stage(s, overlap - n + 1, n - 1, 0)
    ensures Stage(Step(overlap, ONE_USER, s, Revokes(0, Answered)), overlap - n, n, 0)
  {
  }

  lemma {:induction false} AllRevoke(overlap: nat, n: nat)
    requires n <= overlap
    ensures Stage(Run(overlap, ONE_USER, ChecksAndRevokes(overlap, n)), overlap - n, n, 0)
  {
    if n == 0 {
      AllCheck(overlap, overlap);
    } else {
      var fewer := ChecksAndRevokes(overlap, n - 1);
      AllRevoke(overlap, n - 1);
      OneRevokes(overlap, Run(overlap, ONE_USER, fewer), n);
      RunAppend(overlap, ONE_USER, fewer, Revokes(0, Answered));
      assert ChecksAndRevokes(overlap, n) == fewer + [Revokes(0, Answered)];
    }
  }

  ghost predicate LiveUpTo(s: Rotations, n: nat) {
    forall jti :: 1 <= jti <= n ==> IsValid(s.store.tokens, jti, 0, s.store.now)
  }

  lemma OneIssues(overlap: nat, s: Rotations, n: nat)
    requires 1 <= n <= overlap && Stage(s, 0, overlap - n + 1, n - 1) && LiveUpTo(s, n - 1)
    ensures var s' := Step(overlap, ONE_USER, s, Issues(0, n, true, Answered));
      Stage(s', 0, overlap - n, n) && LiveUpTo(s', n)
  {
    var s' := Step(overlap, ONE_USER, s, Issues(0, n, true, Answered));
    assert s'.store.tokens == Save(s.store.tokens, n, 0, Sessions.REFRESH_TTL_SECONDS, 0);
    forall jti | 1 <= jti <= n ensures IsValid(s'.store.tokens, jti, 0, 0) {
      if jti < n {
        assert IsValid(s.store.tokens, jti, 0, 0);
      }
    }
  }

  /** For every overlap: that many calls that all check before the first revokes are all accepted, and leave
      that many live tokens where there was one. */
  lemma {:induction false} OverlapIsReached(overlap: nat, n: nat)
    requires n <= overlap
    ensures var s := Run(overlap, ONE_USER, Race(overlap, n));
      Stage(s, 0, overlap - n, n) && LiveUpTo(s, n)
  {
    if n == 0 {
      AllRevoke(overlap, overlap);
    } else {
      var fewer := Race(overlap, n - 1);
      OverlapIsReached(overlap, n - 1);
      OneIssues(overlap, Run(overlap, ONE_USER, fewer), n);
      RunAppend(overlap, ONE_USER, fewer, Issues(0, n, true, Answered));
      assert Race(overlap, n) == fewer + [Issues(0, n, true, Answered)];
    }
  }

  /** So a token is accepted at most once in every run if and only if calls presenting it never overlap. */
  lemma OnceIffNoOverlap(overlap: nat)
    requires overlap >= 1
    ensures overlap == 1 <==>
      forall owner: Jti -> Uuid, events: seq<Event>, jti: Jti :: Run(overlap, owner, events).accepted[jti] <= 1
  {
    if overlap == 1 {
      forall owner: Jti -> Uuid, events: seq<Event>, jti: Jti ensures Run(overlap, owner, events).accepted[jti] <= 1 {
        AcceptedAtMostOverlap(overlap, owner, events, jti);
      }
    } else {
      OverlapIsReached(overlap, overlap);
    }
  }
}
