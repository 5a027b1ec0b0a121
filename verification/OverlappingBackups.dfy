/** Verifications that overlap on one account's backup codes: each loads the list, finds its code in it, and
    saves the list it loaded without that code (backend-core/src/auth/two-factor.service.ts). */
module OverlappingBackups {
  import opened Basics
  import TwoFactor

  type Codes = seq<TwoFactor.ArgonHash>

  /** The stored list; how many verifications in flight have loaded it, and the older lists that the others
      have loaded; the length of each list saved, and the codes accepted. */
  datatype Backups = Backups(stored: Codes, current: nat, stale: seq<Codes>, saved: multiset<nat>, spent: multiset<TwoFactor.Code>)

  datatype Event =
    | Load
    | AcceptCurrent(code: TwoFactor.Code)
    | AcceptStale(k: nat, code: TwoFactor.Code)
    | LeaveCurrent
    | LeaveStale(k: nat)

  function Begun(issued: Codes): Backups {
    Backups(issued, 0, [], multiset{}, multiset{})
  }

  predicate Holds(codes: Codes, code: TwoFactor.Code) {
    TwoFactor.FirstMatch(codes, code) < |codes|
  }

  /** The whole list is saved: what was loaded, without the code; the loaded lists that were current are not
      any more. */
  function Accepted(s: Backups, loaded: Codes, current: nat, stale: seq<Codes>, code: TwoFactor.Code): Backups
    requires Holds(loaded, code)
  {
    Backups(Without(loaded, TwoFactor.FirstMatch(loaded, code)), 0, stale + Repeat(s.stored, current),
            s.saved + multiset{|loaded| - 1}, s.spent + multiset{code})
  }

  /** At most `overlap` verifications are between their load and their end. A verification that ends otherwise,
      by a TOTP code, a refusal or a fault, leaves. */
  function Step(overlap: nat, s: Backups, event: Event): Backups {
    match event
    case Load => if s.current + |s.stale| >= overlap then s else s.(current := s.current + 1)
    case AcceptCurrent(code) =>
      if s.current == 0 || !Holds(s.stored, code) then s else Accepted(s, s.stored, s.current - 1, s.stale, code)
    case AcceptStale(k, code) =>
      if k >= |s.stale| || !Holds(s.stale[k], code) then s
      else Accepted(s, s.stale[k], s.current, Without(s.stale, k), code)
    case LeaveCurrent => if s.current == 0 then s else s.(current := s.current - 1)
    case LeaveStale(k) => if k >= |s.stale| then s else s.(stale := Without(s.stale, k))
  }

  function Run(overlap: nat, issued: Codes, events: seq<Event>): Backups {
    if events == [] then Begun(issued)
    else Step(overlap, Run(overlap, issued, events[..|events| - 1]), events[|events| - 1])
  }

  // ----- Without overlap every code is single-use -----

  lemma RunAppend(overlap: nat, issued: Codes, events: seq<Event>, event: Event)
    ensures Run(overlap, issued, events + [event]) == Step(overlap, Run(overlap, issued, events), event)
  {
    assert (events + [event])[..|events|] == events;
  }

  ghost predicate SingleUse(issued: Codes, s: Backups) {
    && s.stale == [] && s.current <= 1
    && multiset(TwoFactor.CodesOf(s.stored)) + s.spent == multiset(TwoFactor.CodesOf(issued))
  }

  lemma StepKeepsSingleUse(issued: Codes, s: Backups, event: Event)
    requires SingleUse(issued, s)
    ensures SingleUse(issued, Step(1, s, event))
  {
    if event.AcceptCurrent? && s.current > 0 && Holds(s.stored, event.code) {
      TwoFactor.SpendingOne(s.stored, TwoFactor.FirstMatch(s.stored, event.code));
      assert Repeat(s.stored, 0) == [];
    }
  }

  lemma {:induction false} AloneIsSingleUse(issued: Codes, events: seq<Event>)
    ensures SingleUse(issued, Run(1, issued, events))
  {
    if events != [] {
      AloneIsSingleUse(issued, events[..|events| - 1]);
      StepKeepsSingleUse(issued, Run(1, issued, events[..|events| - 1]), events[|events| - 1]);
    }
  }

  // ----- With overlap a code is accepted again, and a spent one comes back -----

  /** `overlap` verifications of one code load the same list. */
  function SameCode(code: TwoFactor.Code, overlap: nat, accepted: nat): seq<Event> {
    Repeat(Load, overlap) + (if accepted == 0 then [] else [AcceptCurrent(code)] + Repeat(AcceptStale(0, code), accepted - 1))
  }

  lemma {:induction false} AllLoad(overlap: nat, issued: Codes, n: nat)
    requires n <= overlap
    ensures Run(overlap, issued, Repeat(Load, n)) == Begun(issued).(current := n)
  {
    if n > 0 {
      AllLoad(overlap, issued, n - 1);
      RunAppend(overlap, issued, Repeat(Load, n - 1), Load);
    }
  }

  predicate Accepting(s: Backups, issued: Codes, code: TwoFactor.Code, left: nat, accepted: nat) {
    s.current == 0 && s.stale == Repeat(issued, left) && s.spent == multiset{}[code := accepted]
  }

  lemma {:induction false} RepeatIsConstant<E>(event: E, n: nat)
    ensures |Repeat(event, n)| == n && forall k :: 0 <= k < n ==> Repeat(event, n)[k] == event
  {
    if n > 0 {
      RepeatIsConstant(event, n - 1);
    }
  }

  lemma OneMoreAccepts(overlap: nat, s: Backups, issued: Codes, code: TwoFactor.Code, left: nat, accepted: nat)
    requires Accepting(s, issued, code, left, accepted) && left > 0 && Holds(issued, code)
    ensures Accepting(Step(overlap, s, AcceptStale(0, code)), issued, code, left - 1, accepted + 1)
  {
    RepeatIsConstant(issued, left);
    RepeatIsConstant(issued, left - 1);
    assert Without(s.stale, 0) == Repeat(issued, left - 1);
    assert Repeat(s.stored, 0) == [];
  }

  lemma {:induction false} AllAccept(overlap: nat, issued: Codes, code: TwoFactor.Code, n: nat)
    requires 1 <= n <= overlap && Holds(issued, code)
    ensures Accepting(Run(overlap, issued, SameCode(code, overlap, n)), issued, code, overlap - n, n)
    decreases n
  {
    if n == 1 {
      AllLoad(overlap, issued, overlap);
      RunAppend(overlap, issued, Repeat(Load, overlap), AcceptCurrent(code));
      assert SameCode(code, overlap, n) == Repeat(Load, overlap) + [AcceptCurrent(code)];
      assert [] + Repeat(issued, overlap - 1) == Repeat(issued, overlap - 1);
    } else {
      AllAccept(overlap, issued, code, n - 1);
      var earlier := SameCode(code, overlap, n - 1);
      OneMoreAccepts(overlap, Run(overlap, issued, earlier), issued, code, overlap - n + 1, n - 1);
      RunAppend(overlap, issued, earlier, AcceptStale(0, code));
      RepeatLast([AcceptCurrent(code)], AcceptStale(0, code), n - 1);
      assert SameCode(code, overlap, n) == earlier + [AcceptStale(0, code)];
    }
  }

  /** For every overlap: one code is accepted by that many verifications that loaded the same list. */
  lemma SameCodeIsAcceptedAgain(overlap: nat, issued: Codes, code: TwoFactor.Code)
    requires overlap >= 1 && Holds(issued, code)
    ensures Run(overlap, issued, SameCode(code, overlap, overlap)).spent[code] == overlap
  {
    AllAccept(overlap, issued, code, overlap);
  }

  lemma RunOfTwo(overlap: nat, issued: Codes, events: seq<Event>, e1: Event, e2: Event)
    ensures Run(overlap, issued, events + [e1, e2]) == Step(overlap, Step(overlap, Run(overlap, issued, events), e1), e2)
  {
    RunAppend(overlap, issued, events, e1);
    RunAppend(overlap, issued, events + [e1], e2);
    AppendTwo(events, e1, e2);
  }

  lemma FirstIsAccepted(first: TwoFactor.Code, second: TwoFactor.Code, issued: Codes)
    requires first != second && issued == [TwoFactor.ArgonHash(first), TwoFactor.ArgonHash(second)]
    ensures var s := Step(2, Begun(issued).(current := 2), AcceptCurrent(first));
      s.stale == [issued] && s.current == 0 && s.spent == multiset{first}
  {
    RepeatIsConstant(issued, 1);
    assert issued[0].code == first;
    assert TwoFactor.FirstMatch(issued, first) == 0;
  }

  lemma SecondIsAccepted(first: TwoFactor.Code, second: TwoFactor.Code, issued: Codes, s: Backups)
    requires first != second && issued == [TwoFactor.ArgonHash(first), TwoFactor.ArgonHash(second)]
    requires s.stale == [issued]
    ensures var s' := Step(2, s, AcceptStale(0, second));
      s'.stored == [TwoFactor.ArgonHash(first)] && s'.spent == s.spent + multiset{second}
  {
    assert issued[0].code == first && issued[1].code == second;
    assert TwoFactor.FirstMatch(issued, second) == 1;
  }

  lemma BothAreAccepted(first: TwoFactor.Code, second: TwoFactor.Code, issued: Codes, loads: seq<Event>)
    requires first != second && issued == [TwoFactor.ArgonHash(first), TwoFactor.ArgonHash(second)]
    requires Run(2, issued, loads) == Begun(issued).(current := 2)
    ensures var s := Run(2, issued, loads + [AcceptCurrent(first), AcceptStale(0, second)]);
      s.spent == multiset{first} + multiset{second} && s.stored == [TwoFactor.ArgonHash(first)]
  {
    RunOfTwo(2, issued, loads, AcceptCurrent(first), AcceptStale(0, second));
    FirstIsAccepted(first, second, issued);
    SecondIsAccepted(first, second, issued, Step(2, Begun(issued).(current := 2), AcceptCurrent(first)));
  }

  /** A save of an older list brings back a code spent since it was loaded. */
  lemma SpentCodeComesBack(first: TwoFactor.Code, second: TwoFactor.Code)
    requires first != second
    ensures var s := Run(2, TwoFactor.Hashes([first, second]), Repeat(Load, 2) + [AcceptCurrent(first), AcceptStale(0, second)]);
      s.spent[first] == 1 && s.stored == TwoFactor.Hashes([first])
  {
    var issued := TwoFactor.Hashes([first, second]);
    assert TwoFactor.Hashes([first]) == [TwoFactor.ArgonHash(first)];
    AllLoad(2, issued, 2);
    BothAreAccepted(first, second, issued, Repeat(Load, 2));
  }

  /** No code is accepted more often than its generation holds it, over all runs, if and only if verifications
      never overlap. */
  lemma SingleUseIffNoOverlap(overlap: nat)
    requires overlap >= 1
    ensures overlap == 1 <==>
      forall issued: Codes, events: seq<Event>, code: TwoFactor.Code {:trigger Run(overlap, issued, events).spent[code]} ::
        Run(overlap, issued, events).spent[code] <= multiset(TwoFactor.CodesOf(issued))[code]
  {
    if overlap == 1 {
      forall issued: Codes, events: seq<Event>, code: TwoFactor.Code
        ensures Run(overlap, issued, events).spent[code] <= multiset(TwoFactor.CodesOf(issued))[code]
      {
        AloneIsSingleUse(issued, events);
      }
    } else {
      var issued := TwoFactor.Hashes(["code"]);
      assert issued == [TwoFactor.ArgonHash("code")];
      SameCodeIsAcceptedAgain(overlap, issued, "code");
      assert TwoFactor.CodesOf(issued) == ["code"];
      assert multiset(TwoFactor.CodesOf(issued))["code"] == 1;
    }
  }

  // ----- How often codes can be accepted at all -----

  function CountLength(lists: seq<Codes>, length: nat): nat {
    if lists == [] then 0 else (if |lists[0]| == length then 1 else 0) + CountLength(lists[1..], length)
  }

  lemma {:induction false} CountLengthSplit(xs: seq<Codes>, ys: seq<Codes>, length: nat)
    ensures CountLength(xs + ys, length) == CountLength(xs, length) + CountLength(ys, length)
  {
    if xs == [] {
      assert xs + ys == ys;
    } else {
      assert (xs + ys)[1..] == xs[1..] + ys;
      CountLengthSplit(xs[1..], ys, length);
    }
  }

  lemma {:induction false} CountLengthRepeat(list: Codes, n: nat, length: nat)
    ensures CountLength(Repeat(list, n), length) == if |list| == length then n else 0
  {
    if n > 0 {
      CountLengthRepeat(list, n - 1, length);
      CountLengthSplit(Repeat(list, n - 1), [list], length);
    }
  }

  lemma CountLengthWithout(lists: seq<Codes>, k: nat, length: nat)
    requires k < |lists|
    ensures CountLength(lists, length) == CountLength(Without(lists, k), length) + if |lists[k]| == length then 1 else 0
    ensures |Without(lists, k)| == |lists| - 1
  {
    assert lists == lists[..k] + ([lists[k]] + lists[k + 1..]);
    CountLengthSplit(lists[..k], [lists[k]] + lists[k + 1..], length);
    CountLengthSplit([lists[k]], lists[k + 1..], length);
    CountLengthSplit(lists[..k], lists[k + 1..], length);
  }

  /** How many times a list of that length was stored: the generation itself, and the saves. */
  function StoredTimes(n: nat, s: Backups, length: nat): nat {
    s.saved[length] + if length == n then 1 else 0
  }

  /** Each list that was ever stored is loaded, by verifications that save or still may, at most `overlap`
      times: all of them at once, since the next save replaces it. */
  ghost predicate LoadsBounded(overlap: nat, n: nat, s: Backups, length: nat) {
    length >= 1 ==>
      s.saved[length - 1] + CountLength(s.stale, length)
      <= overlap * (StoredTimes(n, s, length) - if length == |s.stored| then 1 else 0)
  }

  ghost predicate Orderly(overlap: nat, n: nat, s: Backups) {
    && s.current + |s.stale| <= overlap
    && StoredTimes(n, s, |s.stored|) >= 1 && |s.stored| <= n
    && (forall list :: list in s.stale ==> |list| <= n)
    && (forall length :: length in s.saved ==> length < n)
  }

  ghost predicate Bounded(overlap: nat, n: nat, s: Backups) {
    Orderly(overlap, n, s) && forall length: nat :: LoadsBounded(overlap, n, s, length)
  }

  lemma OneMoreTime(overlap: nat, times: nat)
    ensures overlap * (times - 1) + overlap == overlap * times
  {
  }

  lemma AcceptKeepsLoads(overlap: nat, n: nat, s: Backups, loaded: Codes, current: nat, stale: seq<Codes>, code: TwoFactor.Code, length: nat)
    requires Holds(loaded, code) && LoadsBounded(overlap, n, s, length) && current <= overlap
    requires StoredTimes(n, s, |s.stored|) >= 1
    requires CountLength(stale, length) + (if length == |loaded| then 1 else 0)
          <= CountLength(s.stale, length) + if length == |s.stored| then s.current - current else 0
    requires s.current <= overlap && current <= s.current
    ensures LoadsBounded(overlap, n, Accepted(s, loaded, current, stale, code), length)
  {
    var s' := Accepted(s, loaded, current, stale, code);
    CountLengthSplit(stale, Repeat(s.stored, current), length);
    CountLengthRepeat(s.stored, current, length);
    if length >= 1 {
      var (before, after) := (StoredTimes(n, s, length), StoredTimes(n, s', length));
      assert after == before + if length == |loaded| - 1 then 1 else 0;
      assert s'.saved[length - 1] == s.saved[length - 1] + if length == |loaded| then 1 else 0;
      OneMoreTime(overlap, before);
      OneMoreTime(overlap, after);
    }
  }

  /** A verification that loads, or ends without a save. */
  lemma EndKeepsBounded(overlap: nat, n: nat, s: Backups, s': Backups)
    requires Bounded(overlap, n, s)
    requires s'.stored == s.stored && s'.saved == s.saved && s'.current + |s'.stale| <= overlap
    requires forall list :: list in s'.stale ==> list in s.stale
    requires forall length: nat :: CountLength(s'.stale, length) <= CountLength(s.stale, length)
    ensures Bounded(overlap, n, s')
  {
    forall length: nat ensures LoadsBounded(overlap, n, s', length) {
      assert LoadsBounded(overlap, n, s, length);
    }
  }

  lemma AcceptKeepsOrder(overlap: nat, n: nat, s: Backups, loaded: Codes, current: nat, stale: seq<Codes>, code: TwoFactor.Code)
    requires Orderly(overlap, n, s) && Holds(loaded, code) && 1 <= |loaded| <= n
    requires current <= s.current && current + |stale| < overlap
    requires forall list :: list in stale ==> list in s.stale
    ensures Orderly(overlap, n, Accepted(s, loaded, current, stale, code))
  {
    RepeatIsConstant(s.stored, current);
  }

  lemma AcceptKeepsBounded(overlap: nat, n: nat, s: Backups, loaded: Codes, current: nat, stale: seq<Codes>, code: TwoFactor.Code)
    requires Bounded(overlap, n, s) && Holds(loaded, code) && 1 <= |loaded| <= n
    requires current <= s.current && current + |stale| < overlap
    requires forall list :: list in stale ==> list in s.stale
    requires forall length: nat ::
      CountLength(stale, length) + (if length == |loaded| then 1 else 0)
      <= CountLength(s.stale, length) + if length == |s.stored| then s.current - current else 0
    ensures Bounded(overlap, n, Accepted(s, loaded, current, stale, code))
  {
    var s' := Accepted(s, loaded, current, stale, code);
    AcceptKeepsOrder(overlap, n, s, loaded, current, stale, code);
    forall length: nat ensures LoadsBounded(overlap, n, s', length) {
      assert LoadsBounded(overlap, n, s, length);
      AcceptKeepsLoads(overlap, n, s, loaded, current, stale, code, length);
    }
  }

  lemma StepKeepsBounded(overlap: nat, n: nat, s: Backups, event: Event)
    requires Bounded(overlap, n, s)
    ensures Bounded(overlap, n, Step(overlap, s, event))
  {
    match event
    case Load => EndKeepsBounded(overlap, n, s, Step(overlap, s, event));
    case LeaveCurrent => EndKeepsBounded(overlap, n, s, Step(overlap, s, event));
    case LeaveStale(k) =>
      if k < |s.stale| {
        forall length: nat ensures CountLength(Without(s.stale, k), length) <= CountLength(s.stale, length) {
          CountLengthWithout(s.stale, k, length);
        }
        CountLengthWithout(s.stale, k, 0);
      }
      EndKeepsBounded(overlap, n, s, Step(overlap, s, event));
    case AcceptCurrent(code) =>
      if s.current > 0 && Holds(s.stored, code) {
        AcceptKeepsBounded(overlap, n, s, s.stored, s.current - 1, s.stale, code);
      }
    case AcceptStale(k, code) =>
      if k < |s.stale| && Holds(s.stale[k], code) {
        forall length: nat
          ensures CountLength(Without(s.stale, k), length) + (if length == |s.stale[k]| then 1 else 0) <= CountLength(s.stale, length)
        {
          CountLengthWithout(s.stale, k, length);
        }
        CountLengthWithout(s.stale, k, 0);
        AcceptKeepsBounded(overlap, n, s, s.stale[k], s.current, Without(s.stale, k), code);
      }
  }

  lemma {:induction false} RunIsBounded(overlap: nat, issued: Codes, events: seq<Event>)
    ensures Bounded(overlap, |issued|, Run(overlap, issued, events))
  {
    if events == [] {
      forall length: nat ensures LoadsBounded(overlap, |issued|, Begun(issued), length) {
      }
    } else {
      RunIsBounded(overlap, issued, events[..|events| - 1]);
      StepKeepsBounded(overlap, |issued|, Run(overlap, issued, events[..|events| - 1]), events[|events| - 1]);
    }
  }

  function Power(base: nat, n: nat): nat {
    if n == 0 then 1 else base * Power(base, n - 1)
  }

  /** base + base^2 + ... + base^n */
  function Geometric(base: nat, n: nat): nat {
    if n == 0 then 0 else Geometric(base, n - 1) + Power(base, n)
  }

  lemma ProductGrows(base: nat, small: nat, large: nat)
    requires small <= large
    ensures base * small <= base * large
  {
  }

  lemma {:induction false} SavesOfLength(overlap: nat, n: nat, s: Backups, depth: nat)
    requires Bounded(overlap, n, s) && 1 <= depth <= n
    ensures s.saved[n - depth] <= Power(overlap, depth)
  {
    var length := n - depth + 1;
    assert LoadsBounded(overlap, n, s, length);
    var times := StoredTimes(n, s, length);
    assert s.saved[length - 1] <= overlap * times;
    if depth == 1 {
      assert n !in s.saved;
      assert times == 1 && Power(overlap, 1) == overlap * Power(overlap, 0);
    } else {
      SavesOfLength(overlap, n, s, depth - 1);
      ProductGrows(overlap, times, Power(overlap, depth - 1));
    }
  }

  lemma {:induction false} SavesInAll(overlap: nat, n: nat, saved: multiset<nat>, depth: nat)
    requires depth <= n && forall length :: length in saved ==> n - depth <= length < n
    requires forall d :: 1 <= d <= depth ==> saved[n - d] <= Power(overlap, d)
    ensures |saved| <= Geometric(overlap, depth)
  {
    if depth == 0 {
      assert saved == multiset{};
    } else {
      var fewer := saved[n - depth := 0];
      SavesInAll(overlap, n, fewer, depth - 1);
      assert saved == fewer + multiset{}[n - depth := saved[n - depth]];
    }
  }

  lemma BoundedSaves(overlap: nat, n: nat, s: Backups)
    requires Bounded(overlap, n, s)
    ensures |s.saved| <= Geometric(overlap, n)
  {
    forall d | 1 <= d <= n ensures s.saved[n - d] <= Power(overlap, d) {
      SavesOfLength(overlap, n, s, d);
    }
    SavesInAll(overlap, n, s.saved, n);
  }

  lemma {:induction false} GeometricOfOne(n: nat)
    ensures Power(1, n) == 1 && Geometric(1, n) == n
  {
    if n > 0 {
      GeometricOfOne(n - 1);
    }
  }

  lemma StepSavesWhatItAccepts(overlap: nat, s: Backups, event: Event)
    requires |s.saved| == |s.spent|
    ensures |Step(overlap, s, event).saved| == |Step(overlap, s, event).spent|
  {
  }

  lemma {:induction false} SavesAreAcceptances(overlap: nat, issued: Codes, events: seq<Event>)
    ensures |Run(overlap, issued, events).saved| == |Run(overlap, issued, events).spent|
  {
    if events != [] {
      SavesAreAcceptances(overlap, issued, events[..|events| - 1]);
      StepSavesWhatItAccepts(overlap, Run(overlap, issued, events[..|events| - 1]), events[|events| - 1]);
    }
  }

  /** With at most `overlap` verifications in flight, a generation of n codes is accepted at most
      overlap + overlap^2 + ... + overlap^n times in all: n times without overlap (GeometricOfOne). */
  lemma AcceptancesAreBounded(overlap: nat, issued: Codes, events: seq<Event>)
    ensures var s := Run(overlap, issued, events);
      |s.saved| == |s.spent| <= Geometric(overlap, |issued|)
  {
    RunIsBounded(overlap, issued, events);
    SavesAreAcceptances(overlap, issued, events);
    BoundedSaves(overlap, |issued|, Run(overlap, issued, events));
  }
}
