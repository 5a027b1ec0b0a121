/** Vocabulary shared by every other module. */
module Basics {

  datatype Option<+T> = None | Some(value: T)

  /** A UUID, as the 128-bit number whose order the database sorts by. */
  type Uuid = nat

  /** What a caller sees of one Redis command: it ran and was answered, it did not run, or it ran
      and the answer was lost. The last two raise the same exception in the client library. */
  datatype Reply = Answered | Refused | AnswerLost {
    predicate Ran() { !Refused? }
    predicate Raised() { !Answered? }
  }

  /** A Redis value with its expiry: Redis shows it strictly before `expiresAt` and not after. */
  datatype Timed<+T> = Timed(value: T, expiresAt: nat) {
    predicate Live(now: nat) { now < expiresAt }
  }

  lemma SubsetSize<T>(small: set<T>, large: set<T>)
    requires small <= large
    ensures |small| <= |large|
  {
    assert large == small + (large - small);
  }

  /** Where the first element that `p` accepts is; the length if it accepts none. */
  function FirstIndex<T>(xs: seq<T>, p: T -> bool): (k: nat)
    ensures k <= |xs|
    ensures k < |xs| ==> p(xs[k])
    ensures forall j :: 0 <= j < k ==> !p(xs[j])
  {
    if xs == [] || p(xs[0]) then 0 else 1 + FirstIndex(xs[1..], p)
  }

  /** A run: each event takes the state one step further. */
  function Fold<S, E>(step: (S, E) -> S, s: S, events: seq<E>): S {
    if events == [] then s else step(Fold(step, s, events[..|events| - 1]), events[|events| - 1])
  }

  lemma FoldOne<S, E>(step: (S, E) -> S, s: S, event: E)
    ensures Fold(step, s, [event]) == step(s, event)
  {
    assert [event][..0] == [];
  }

  lemma FoldAppend<S, E>(step: (S, E) -> S, s: S, events: seq<E>, event: E)
    ensures Fold(step, s, events + [event]) == step(Fold(step, s, events), event)
  {
    assert (events + [event])[..|events|] == events;
  }

  lemma {:induction false} FoldSplit<S, E>(step: (S, E) -> S, s: S, first: seq<E>, second: seq<E>)
    ensures Fold(step, s, first + second) == Fold(step, Fold(step, s, first), second)
  {
    if second == [] {
      assert first + second == first;
    } else {
      var (shorter, last) := (second[..|second| - 1], second[|second| - 1]);
      FoldSplit(step, s, first, shorter);
      FoldAppend(step, s, first + shorter, last);
      FoldAppend(step, Fold(step, s, first), shorter, last);
      assert first + second == first + shorter + [last] && second == shorter + [last];
    }
  }

  function Repeat<E>(event: E, n: nat): seq<E> {
    if n == 0 then [] else Repeat(event, n - 1) + [event]
  }

  lemma RepeatLast<E>(events: seq<E>, event: E, n: nat)
    requires n > 0
    ensures events + Repeat(event, n) == events + Repeat(event, n - 1) + [event]
  {
  }

  lemma RepeatNone<E>(events: seq<E>, event: E)
    ensures events + Repeat(event, 0) == events
  {
  }

  function Without<T>(xs: seq<T>, i: nat): seq<T>
    requires i < |xs|
  {
    xs[..i] + xs[i + 1..]
  }

  lemma AppendTwo<E>(events: seq<E>, first: E, second: E)
    ensures events + [first, second] == events + [first] + [second]
  {
  }

  lemma ConcatIsAssociative<E>(a: seq<E>, b: seq<E>, c: seq<E>)
    ensures a + b + c == a + (b + c)
  {
  }
}
