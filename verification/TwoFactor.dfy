/** Two-factor enrolment, verification and brute-force protection
    (backend-core/src/auth/two-factor.service.ts). TOTP validity is an input of each call; hashing is
    ideal, so a stored hash matches exactly the code it was made from. */
module TwoFactor {
  import opened Basics

  const BACKUP_CODES_COUNT: nat := 8
  const MAX_FAILED_ATTEMPTS: nat := 5
  const FAIL_WINDOW_SECONDS: nat := 300

  type Code = string

  datatype ArgonHash = ArgonHash(code: Code)

  datatype Account = Account(enabled: bool, secret: Option<nat>, backup: Option<seq<ArgonHash>>)

  /** The Redis counter of failures; without a deadline it never expires. */
  datatype Failures = Failures(count: nat, expiresAt: Option<nat>)

  datatype User = User(account: Account, failures: Option<Failures>)

  /** Redis' answers to one verification: the lock check, then INCR or DEL, then EXPIRE. */
  datatype Replies = Replies(check: Reply, update: Reply, expire: Reply)

  const NO_FAULTS: Replies := Replies(Answered, Answered, Answered)

  datatype Verdict = AcceptedTotp | AcceptedBackup | Wrong | NotEnabled | Locked | Unavailable | UnknownUser {
    predicate Accepted() { AcceptedTotp? || AcceptedBackup? }
  }

  // ----- The failure counter -----

  predicate Expired(failures: Failures, now: nat) {
    failures.expiresAt.Some? && failures.expiresAt.value <= now
  }

  /** What GET shows: nothing once the deadline has passed. */
  function Visible(failures: Option<Failures>, now: nat): nat {
    if failures.None? || Expired(failures.value, now) then 0 else failures.value.count
  }

  function RegisterFailure(failures: Option<Failures>, now: nat, replies: Replies): Option<Failures> {
    if !replies.update.Ran() then failures
    else
      // INCR keeps the deadline of a live key and gives a new key none
      var incremented :=
        if failures.None? || Expired(failures.value, now) then Failures(1, None)
        else failures.value.(count := failures.value.count + 1);
      if replies.update.Answered? && incremented.count == 1 && replies.expire.Ran()
      then Some(incremented.(expiresAt := Some(now + FAIL_WINDOW_SECONDS)))
      else Some(incremented)
  }

  function ClearFailures(failures: Option<Failures>, replies: Replies): Option<Failures> {
    if replies.update.Ran() then None else failures
  }

  // ----- The operations, as functions of one user -----

  /** Where a code first occurs among the stored hashes; their number if it does not. */
  function FirstMatch(hashed: seq<ArgonHash>, code: Code): (i: nat)
    ensures i <= |hashed|
    ensures i < |hashed| ==> hashed[i].code == code
    ensures forall j :: 0 <= j < i ==> hashed[j].code != code
  {
    FirstIndex(hashed, (h: ArgonHash) => h.code == code)
  }

  function StoredCodes(account: Account): seq<ArgonHash> {
    if account.backup.Some? then account.backup.value else []
  }

  function Verify(user: User, now: nat, code: Code, totpOk: bool, replies: Replies): (User, Verdict) {
    if !user.account.enabled || user.account.secret.None? then (user, NotEnabled)
    else if replies.check.Raised() then (user, Unavailable)
    else if Visible(user.failures, now) >= MAX_FAILED_ATTEMPTS then (user, Locked)
    else if totpOk then (user.(failures := ClearFailures(user.failures, replies)), AcceptedTotp)
    else
      var hashed := StoredCodes(user.account);
      var i := FirstMatch(hashed, code);
      if i < |hashed|
      then (User(user.account.(backup := Some(Without(hashed, i))), ClearFailures(user.failures, replies)), AcceptedBackup)
      else (user.(failures := RegisterFailure(user.failures, now, replies)), Wrong)
  }

  function Hashes(codes: seq<Code>): seq<ArgonHash> {
    seq(|codes|, i requires 0 <= i < |codes| => ArgonHash(codes[i]))
  }

  function Enroll(user: User, secret: nat): User {
    if user.account.enabled then user else user.(account := user.account.(secret := Some(secret)))
  }

  function Confirm(user: User, totpOk: bool, codes: seq<Code>): User {
    if user.account.secret.None? || !totpOk then user
    else user.(account := Account(true, user.account.secret, Some(Hashes(codes))))
  }

  function Disable(user: User, now: nat, code: Code, totpOk: bool, replies: Replies): User {
    var (after, verdict) := Verify(user, now, code, totpOk, replies);
    if verdict.Accepted() then after.(account := Account(false, None, None)) else after
  }

  function Regenerate(user: User, now: nat, code: Code, totpOk: bool, replies: Replies, codes: seq<Code>): User {
    var (after, verdict) := Verify(user, now, code, totpOk, replies);
    if verdict.Accepted() then after.(account := after.account.(backup := Some(Hashes(codes)))) else after
  }

  // ----- The service, in place -----

  datatype Outcome = Done | NotFound | Conflict | Unauthorized | Refused(verdict: Verdict)

  class TwoFactorService {
    var accounts: map<Uuid, Account>
    var counters: map<Uuid, Failures>
    var now: nat

    constructor (accounts: map<Uuid, Account>)
      ensures this.accounts == accounts && counters == map[] && now == 0
    {
      this.accounts, counters, now := accounts, map[], 0;
    }

    function View(id: Uuid): User
      requires id in accounts
      reads this
    {
      User(accounts[id], if id in counters then Some(counters[id]) else None)
    }

    /** Only user `id` is touched. */
    twostate predicate OthersUnchanged(id: Uuid)
      reads this
    {
      && accounts.Keys == old(accounts.Keys)
      && now == old(now)
      && forall other :: other in accounts && other != id ==> View(other) == old(View(other))
    }

    method SetCounter(id: Uuid, failures: Option<Failures>)
      requires id in accounts
      modifies this`counters
      ensures View(id) == old(View(id)).(failures := failures) && OthersUnchanged(id)
    {
      counters := if failures.Some? then counters[id := failures.value] else counters - {id};
    }

    method SaveAccount(id: Uuid, account: Account)
      requires id in accounts
      modifies this`accounts
      ensures accounts == old(accounts)[id := account]
      ensures View(id) == old(View(id)).(account := account) && OthersUnchanged(id)
    {
      accounts := accounts[id := account];
    }

    method VerifyCode(id: Uuid, code: Code, totpOk: bool, replies: Replies) returns (verdict: Verdict)
      modifies this`accounts, this`counters
      ensures accounts.Keys == old(accounts.Keys)
      ensures if id !in old(accounts) then verdict == UnknownUser && accounts == old(accounts) && counters == old(counters)
              else (View(id), verdict) == Verify(old(View(id)), now, code, totpOk, replies) && OthersUnchanged(id)
    {
      if id !in accounts {
        return UnknownUser;
      }
      var account := accounts[id];
      ghost var before := View(id);
      if !account.enabled || account.secret.None? {
        return NotEnabled;
      }
      if replies.check.Raised() {
        return Unavailable;
      }
      var failures := if id in counters then Some(counters[id]) else None;
      if Visible(failures, now) >= MAX_FAILED_ATTEMPTS {
        return Locked;
      }
      if totpOk {
        SetCounter(id, ClearFailures(failures, replies));
        return AcceptedTotp;
      }
      var hashed := StoredCodes(account);
      var i := 0;
      while i < |hashed|
        invariant 0 <= i <= |hashed|
        invariant forall j :: 0 <= j < i ==> hashed[j].code != code
        invariant accounts == old(accounts) && counters == old(counters)
      {
        if hashed[i].code == code {
          assert i == FirstMatch(hashed, code);
          SaveAccount(id, account.(backup := Some(Without(hashed, i))));
          SetCounter(id, ClearFailures(failures, replies));
          return AcceptedBackup;
        }
        i := i + 1;
      }
      SetCounter(id, RegisterFailure(failures, now, replies));
      verdict := Wrong;
    }

    method EnrollUser(id: Uuid, secret: nat) returns (outcome: Outcome)
      modifies this`accounts
      ensures accounts.Keys == old(accounts.Keys)
      ensures if id !in old(accounts) then outcome == NotFound && accounts == old(accounts)
              else View(id) == Enroll(old(View(id)), secret) && OthersUnchanged(id)
                   && outcome == if old(accounts[id].enabled) then Conflict else Done
    {
      if id !in accounts {
        return NotFound;
      }
      if accounts[id].enabled {
        return Conflict;
      }
      SaveAccount(id, accounts[id].(secret := Some(secret)));
      outcome := Done;
    }

    /** `codes` are the freshly generated backup codes. */
    method ConfirmUser(id: Uuid, totpOk: bool, codes: seq<Code>) returns (outcome: Outcome)
      modifies this`accounts
      ensures accounts.Keys == old(accounts.Keys)
      ensures if id !in old(accounts) then outcome == NotFound && accounts == old(accounts)
              else View(id) == Confirm(old(View(id)), totpOk, codes) && OthersUnchanged(id)
                   && outcome == if old(accounts[id].secret.None?) || !totpOk then Unauthorized else Done
    {
      if id !in accounts {
        return NotFound;
      }
      var account := accounts[id];
      if account.secret.None? || !totpOk {
        return Unauthorized;
      }
      SaveAccount(id, Account(true, account.secret, Some(Hashes(codes))));
      outcome := Done;
    }

    method DisableUser(id: Uuid, code: Code, totpOk: bool, replies: Replies) returns (outcome: Outcome)
      modifies this`accounts, this`counters
      ensures accounts.Keys == old(accounts.Keys)
      ensures if id !in old(accounts) then outcome == Outcome.Refused(UnknownUser) && accounts == old(accounts) && counters == old(counters)
              else
                && View(id) == Disable(old(View(id)), now, code, totpOk, replies) && OthersUnchanged(id)
                && (outcome.Done? <==> Verify(old(View(id)), now, code, totpOk, replies).1.Accepted())
    {
      var verdict := VerifyCode(id, code, totpOk, replies);
      if !verdict.Accepted() {
        return Outcome.Refused(verdict);
      }
      SaveAccount(id, Account(false, None, None));
      outcome := Done;
    }

    method RegenerateBackupCodes(id: Uuid, code: Code, totpOk: bool, replies: Replies, codes: seq<Code>) returns (outcome: Outcome)
      modifies this`accounts, this`counters
      ensures accounts.Keys == old(accounts.Keys)
      ensures if id !in old(accounts) then outcome == Outcome.Refused(UnknownUser) && accounts == old(accounts) && counters == old(counters)
              else
                && View(id) == Regenerate(old(View(id)), now, code, totpOk, replies, codes) && OthersUnchanged(id)
                && (outcome.Done? <==> Verify(old(View(id)), now, code, totpOk, replies).1.Accepted())
    {
      var verdict := VerifyCode(id, code, totpOk, replies);
      if !verdict.Accepted() {
        return Outcome.Refused(verdict);
      }
      SaveAccount(id, accounts[id].(backup := Some(Hashes(codes))));
      outcome := Done;
    }
  }

  // ----- Runs of one account -----

  datatype Event =
    | Wait(seconds: nat)
    | EnrollEvent(secret: nat)
    | ConfirmEvent(totpOk: bool, codes: seq<Code>)
    | VerifyEvent(code: Code, totpOk: bool, replies: Replies)
    | DisableEvent(code: Code, totpOk: bool, replies: Replies)
    | RegenerateEvent(code: Code, totpOk: bool, replies: Replies, codes: seq<Code>)

  /** A user in time. `issued` is the current generation of backup codes and `spent` the ones of it
      accepted so far, by any operation; `wrong` counts the refused codes, and `opening` is how Redis
      answered the failure that opened the present window of the counter. */
  datatype State = State(user: User, now: nat, issued: seq<Code>, spent: multiset<Code>, wrong: nat, opening: Option<Replies>)

  const NEW_STATE: State := State(User(Account(false, None, None), None), 0, [], multiset{}, 0, None)

  /** A window of the counter is open. */
  predicate Counting(s: State) {
    s.user.failures.Some? && !Expired(s.user.failures.value, s.now)
  }

  function AfterVerify(s: State, code: Code, totpOk: bool, replies: Replies): State {
    var (user, verdict) := Verify(s.user, s.now, code, totpOk, replies);
    s.(user := user,
       spent := if verdict.AcceptedBackup? then s.spent + multiset{code} else s.spent,
       wrong := if verdict.Wrong? then s.wrong + 1 else s.wrong,
       opening := if verdict.Wrong? && replies.update.Ran() && !Counting(s) then Some(replies) else s.opening)
  }

  /** The generator always makes eight codes. */
  function Step(s: State, event: Event): State {
    match event
    case Wait(seconds) => s.(now := s.now + seconds)
    case EnrollEvent(secret) => s.(user := Enroll(s.user, secret))
    case ConfirmEvent(totpOk, codes) =>
      if |codes| != BACKUP_CODES_COUNT || s.user.account.secret.None? || !totpOk then s
      else s.(user := Confirm(s.user, totpOk, codes), issued := codes, spent := multiset{})
    case VerifyEvent(code, totpOk, replies) => AfterVerify(s, code, totpOk, replies)
    case DisableEvent(code, totpOk, replies) =>
      var verified := AfterVerify(s, code, totpOk, replies);
      if !Verify(s.user, s.now, code, totpOk, replies).1.Accepted() then verified
      else verified.(user := Disable(s.user, s.now, code, totpOk, replies), issued := [], spent := multiset{})
    case RegenerateEvent(code, totpOk, replies, codes) =>
      var verified := AfterVerify(s, code, totpOk, replies);
      if |codes| != BACKUP_CODES_COUNT then s
      else if !Verify(s.user, s.now, code, totpOk, replies).1.Accepted() then verified
      else verified.(user := Regenerate(s.user, s.now, code, totpOk, replies, codes), issued := codes, spent := multiset{})
  }

  function Run(s: State, events: seq<Event>): State {
    Fold(Step, s, events)
  }

  // ----- Backup codes are conserved -----

  function CodesOf(hashed: seq<ArgonHash>): seq<Code> {
    seq(|hashed|, i requires 0 <= i < |hashed| => hashed[i].code)
  }

  ghost predicate CodesConserved(s: State) {
    && (s.user.account.enabled ==> s.user.account.secret.Some?)
    && (s.user.account.enabled <==> s.user.account.backup.Some?)
    && (s.user.account.backup.Some? ==>
          && |s.issued| == BACKUP_CODES_COUNT
          && multiset(CodesOf(s.user.account.backup.value)) + s.spent == multiset(s.issued))
  }

  lemma SpendingOne(hashed: seq<ArgonHash>, i: nat)
    requires i < |hashed|
    ensures multiset(CodesOf(hashed)) == multiset(CodesOf(Without(hashed, i))) + multiset{hashed[i].code}
  {
    var (front, back) := (CodesOf(hashed[..i]), CodesOf(hashed[i + 1..]));
    assert CodesOf(hashed) == front + [hashed[i].code] + back;
    assert CodesOf(Without(hashed, i)) == front + back;
  }

  /** A verification leaves the account alone, or spends one code of it. */
  lemma VerifyOnlySpends(s: State, code: Code, totpOk: bool, replies: Replies)
    ensures var (s', hashed) := (AfterVerify(s, code, totpOk, replies), StoredCodes(s.user.account));
      && s'.issued == s.issued
      && (|| (s'.user.account == s.user.account && s'.spent == s.spent)
          || (&& s.user.account.enabled && FirstMatch(hashed, code) < |hashed|
              && s'.user.account == s.user.account.(backup := Some(Without(hashed, FirstMatch(hashed, code))))
              && s'.spent == s.spent + multiset{code}))
  {
  }

  lemma VerifyConserves(s: State, code: Code, totpOk: bool, replies: Replies)
    requires CodesConserved(s)
    ensures CodesConserved(AfterVerify(s, code, totpOk, replies))
  {
    VerifyOnlySpends(s, code, totpOk, replies);
    var hashed := StoredCodes(s.user.account);
    var i := FirstMatch(hashed, code);
    if i < |hashed| {
      SpendingOne(hashed, i);
    }
  }

  lemma RegenerationConserves(s: State, event: Event)
    requires CodesConserved(s) && event.RegenerateEvent?
    ensures CodesConserved(Step(s, event))
  {
    VerifyConserves(s, event.code, event.totpOk, event.replies);
    assert CodesOf(Hashes(event.codes)) == event.codes;
  }

  lemma StepConserves(s: State, event: Event)
    requires CodesConserved(s)
    ensures CodesConserved(Step(s, event))
  {
    match event
    case VerifyEvent(code, totpOk, replies) => VerifyConserves(s, code, totpOk, replies);
    case DisableEvent(code, totpOk, replies) => VerifyConserves(s, code, totpOk, replies);
    case RegenerateEvent(_, _, _, _) => RegenerationConserves(s, event);
    case ConfirmEvent(_, codes) => assert CodesOf(Hashes(codes)) == codes;
    case _ =>
  }

  lemma {:induction false} RunConserves(events: seq<Event>)
    ensures CodesConserved(Run(NEW_STATE, events))
  {
    if events != [] {
      RunConserves(events[..|events| - 1]);
      StepConserves(Run(NEW_STATE, events[..|events| - 1]), events[|events| - 1]);
    }
  }

  /** In every run, Redis faults included: 2FA is on only with a stored secret and exactly with a list of
      backup codes; the list has eight codes less one per backup acceptance of its generation; and a code
      is accepted at most as often as its generation holds it. */
  lemma BackupCodesAreSingleUse(events: seq<Event>)
    ensures var s := Run(NEW_STATE, events);
      var account := s.user.account;
      && (account.enabled ==> account.secret.Some?)
      && (account.enabled <==> account.backup.Some?)
      && (account.enabled ==>
            && |account.backup.value| == 8 - |s.spent|
            && s.spent <= multiset(s.issued)
            && forall code :: s.spent[code] <= multiset(s.issued)[code])
  {
    RunConserves(events);
    var s := Run(NEW_STATE, events);
    if s.user.account.enabled {
      var codes := CodesOf(s.user.account.backup.value);
      assert |multiset(codes) + s.spent| == |codes| + |s.spent|;
      assert |multiset(s.issued)| == |s.issued|;
    }
  }

  // ----- The lockout bound -----

  /** The three operations that verify a code. */
  predicate Verifies(event: Event) {
    event.VerifyEvent? || event.DisableEvent? || event.RegenerateEvent?
  }

  /** No operation succeeds on this account, whatever Redis does. */
  predicate Failing(account: Account, event: Event) {
    || event.Wait? || event.EnrollEvent? || (event.ConfirmEvent? && !event.totpOk)
    || (Verifies(event) && !event.totpOk
        && FirstMatch(StoredCodes(account), event.code) == |StoredCodes(account)|)
  }

  /** A failure that the counter misses, because its INCR did not run. */
  predicate Uncounted(s: State, s': State, event: Event) {
    Verifies(event) && !event.replies.update.Ran() && s'.wrong > s.wrong
  }

  function UncountedFailures(s: State, events: seq<Event>): nat {
    if events == [] then 0
    else
      var earlier := events[..|events| - 1];
      UncountedFailures(s, earlier) + if Uncounted(Run(s, earlier), Run(s, events), events[|events| - 1]) then 1 else 0
  }

  /** `counted` failures since `start`, seen from the counter: five for every whole window before the current
      one, plus what the current one has counted. Without a deadline there is no later window. */
  ghost predicate WithinBound(s: State, start: nat, counted: int) {
    && start <= s.now
    && (if s.user.failures.None? || Expired(s.user.failures.value, s.now)
        then counted <= MAX_FAILED_ATTEMPTS * ((s.now - start) / FAIL_WINDOW_SECONDS)
        else
          var f := s.user.failures.value;
          && 1 <= f.count <= MAX_FAILED_ATTEMPTS
          && if f.expiresAt.None?
             then counted <= MAX_FAILED_ATTEMPTS * ((s.now - start) / FAIL_WINDOW_SECONDS) + f.count
             else
               && start + FAIL_WINDOW_SECONDS <= f.expiresAt.value <= s.now + FAIL_WINDOW_SECONDS
               && counted <= MAX_FAILED_ATTEMPTS * ((f.expiresAt.value - FAIL_WINDOW_SECONDS - start) / FAIL_WINDOW_SECONDS) + f.count)
  }

  lemma WaitKeepsBound(s: State, seconds: nat, start: nat, counted: int)
    requires WithinBound(s, start, counted)
    ensures WithinBound(s.(now := s.now + seconds), start, counted)
  {
    if s.user.failures.Some? && !Expired(s.user.failures.value, s.now) && s.user.failures.value.expiresAt.Some? {
      var deadline := s.user.failures.value.expiresAt.value;
      assert (deadline - FAIL_WINDOW_SECONDS - start) / FAIL_WINDOW_SECONDS + 1 == (deadline - start) / FAIL_WINDOW_SECONDS;
    }
  }

  lemma RefusedCodeKeepsBound(s: State, code: Code, replies: Replies, start: nat, counted: int)
    requires FirstMatch(StoredCodes(s.user.account), code) == |StoredCodes(s.user.account)|
    requires WithinBound(s, start, counted)
    ensures var s' := AfterVerify(s, code, false, replies);
      && s'.user.account == s.user.account
      && WithinBound(s', start, counted + if s'.wrong > s.wrong && replies.update.Ran() then 1 else 0)
  {
  }

  /** Disabling and regenerating with a refused code do no more than verify it. */
  lemma RefusedCodeIsAll(s: State, event: Event)
    requires Verifies(event) && Failing(s.user.account, event)
    ensures Step(s, event) == s || Step(s, event) == AfterVerify(s, event.code, false, event.replies)
    ensures Step(s, event).wrong <= s.wrong + 1
  {
  }

  lemma OtherFailuresChangeNothing(s: State, event: Event)
    requires s.user.account.enabled && Failing(s.user.account, event) && !event.Wait? && !Verifies(event)
    ensures Step(s, event) == s
  {
  }

  lemma RefusalKeepsBound(s: State, s': State, event: Event, start: nat, counted: int)
    requires Verifies(event) && Failing(s.user.account, event) && WithinBound(s, start, counted)
    requires (s' == s || s' == AfterVerify(s, event.code, false, event.replies)) && s'.wrong <= s.wrong + 1
    ensures s'.user.account == s.user.account
    ensures WithinBound(s', start, counted + (s'.wrong - s.wrong) - if Uncounted(s, s', event) then 1 else 0)
  {
    if s' != s {
      RefusedCodeKeepsBound(s, event.code, event.replies, start, counted);
      assert s'.wrong >= s.wrong;
    }
  }

  lemma FailingStepKeepsBound(s: State, s': State, event: Event, start: nat, counted: int)
    requires s.user.account.enabled && Failing(s.user.account, event) && s' == Step(s, event)
    requires WithinBound(s, start, counted)
    ensures s'.user.account == s.user.account
    ensures WithinBound(s', start, counted + (s'.wrong - s.wrong) - if Uncounted(s, s', event) then 1 else 0)
  {
    if event.Wait? {
      WaitKeepsBound(s, event.seconds, start, counted);
    } else if Verifies(event) {
      RefusedCodeIsAll(s, event);
      RefusalKeepsBound(s, s', event, start, counted);
    } else {
      OtherFailuresChangeNothing(s, event);
    }
  }

  /** From `s` to `s'` only failures happened, `uncounted` of them unseen by the counter. */
  ghost predicate OnlyFailed(s: State, s': State, uncounted: nat) {
    s'.user.account == s.user.account && WithinBound(s', s.now, s'.wrong - s.wrong - uncounted)
  }

  lemma OneMoreFailure(s: State, before: State, after: State, event: Event, uncounted: nat)
    requires s.user.account.enabled && Failing(s.user.account, event) && after == Step(before, event)
    requires OnlyFailed(s, before, uncounted)
    ensures OnlyFailed(s, after, uncounted + if Uncounted(before, after, event) then 1 else 0)
  {
    FailingStepKeepsBound(before, after, event, s.now, before.wrong - s.wrong - uncounted);
  }

  lemma {:induction false} FailingRunKeepsBound(s: State, events: seq<Event>)
    requires s.user.account.enabled && s.user.failures.None?
    requires forall e :: e in events ==> Failing(s.user.account, e)
    ensures OnlyFailed(s, Run(s, events), UncountedFailures(s, events))
  {
    if events != [] {
      var (earlier, last) := (events[..|events| - 1], events[|events| - 1]);
      assert last in events;
      FailingRunKeepsBound(s, earlier);
      OneMoreFailure(s, Run(s, earlier), Run(s, events), last, UncountedFailures(s, earlier));
    }
  }

  /** Five failures for each window of 300 seconds begun in that time. */
  function FullWindows(seconds: nat): nat {
    MAX_FAILED_ATTEMPTS * (seconds / FAIL_WINDOW_SECONDS + 1)
  }

  /** No more than five failures for each window, apart from the uncounted ones. */
  predicate WithinWindows(s: State, s': State, uncounted: nat) {
    s.now <= s'.now && s'.wrong - s.wrong <= FullWindows(s'.now - s.now) + uncounted
  }

  lemma BoundInWindows(s: State, s': State, uncounted: nat)
    requires OnlyFailed(s, s', uncounted)
    ensures WithinWindows(s, s', uncounted)
  {
  }

  /** From a cleared counter, verifications one after another that all fail, by whatever operation and with
      any Redis faults, are at most 5 * (T / 300 + 1) within T seconds, plus those whose INCR did not run:
      everything beyond is refused as locked. */
  lemma LockoutBound(s: State, events: seq<Event>)
    requires s.user.account.enabled && s.user.failures.None?
    requires forall e :: e in events ==> Failing(s.user.account, e)
    ensures WithinWindows(s, Run(s, events), UncountedFailures(s, events))
  {
    FailingRunKeepsBound(s, events);
    BoundInWindows(s, Run(s, events), UncountedFailures(s, events));
  }

  /** With every INCR run, the bound is the windows alone. */
  lemma {:induction false} CountedFailuresOnly(s: State, events: seq<Event>)
    requires forall e :: e in events && Verifies(e) ==> e.replies.update.Ran()
    ensures UncountedFailures(s, events) == 0
  {
    if events != [] {
      assert events[|events| - 1] in events;
      CountedFailuresOnly(s, events[..|events| - 1]);
    }
  }

  // ----- The bound is reached -----

  function WrongCodes(code: Code, n: nat): seq<Event> {
    Repeat(VerifyEvent(code, false, NO_FAULTS), n)
  }

  /** `rounds` times `burst` wrong codes and a wait of one window, and a last burst. */
  function FullRounds(code: Code, burst: nat, rounds: nat): seq<Event> {
    if rounds == 0 then WrongCodes(code, burst)
    else FullRounds(code, burst, rounds - 1) + [Wait(FAIL_WINDOW_SECONDS)] + WrongCodes(code, burst)
  }

  predicate WrongFor(account: Account, code: Code) {
    account.enabled && account.secret.Some? && FirstMatch(StoredCodes(account), code) == |StoredCodes(account)|
  }

  /** The counter of a window that began at `start` and has seen `n` failures. */
  predicate CounterIs(s: State, start: nat, n: nat) {
    if n == 0 then s.user.failures.None? || Expired(s.user.failures.value, s.now)
    else s.user.failures == Some(Failures(n, Some(start + FAIL_WINDOW_SECONDS)))
  }

  /** `s'` is `s` after `n` counted failures, at the same time. */
  predicate CountedFrom(s: State, s': State, n: nat) {
    s'.wrong == s.wrong + n && s'.now == s.now && s'.user.account == s.user.account && CounterIs(s', s.now, n)
  }

  lemma WrongCodeCounts(s: State, t: State, code: Code, n: nat)
    requires WrongFor(s.user.account, code) && n < MAX_FAILED_ATTEMPTS && CountedFrom(s, t, n)
    ensures CountedFrom(s, Step(t, VerifyEvent(code, false, NO_FAULTS)), n + 1)
  {
  }

  lemma LastWrongCode(s: State, code: Code, n: nat)
    requires n > 0
    ensures Run(s, WrongCodes(code, n)) == Step(Run(s, WrongCodes(code, n - 1)), VerifyEvent(code, false, NO_FAULTS))
  {
    var fewer := WrongCodes(code, n - 1);
    assert WrongCodes(code, n) == fewer + [VerifyEvent(code, false, NO_FAULTS)];
    FoldAppend(Step, s, fewer, VerifyEvent(code, false, NO_FAULTS));
  }

  lemma {:induction false} WrongCodesCount(s: State, code: Code, n: nat)
    requires WrongFor(s.user.account, code) && CounterIs(s, s.now, 0) && n <= MAX_FAILED_ATTEMPTS
    ensures CountedFrom(s, Run(s, WrongCodes(code, n)), n)
  {
    if n > 0 {
      WrongCodesCount(s, code, n - 1);
      var before := Run(s, WrongCodes(code, n - 1));
      WrongCodeCounts(s, before, code, n - 1);
      LastWrongCode(s, code, n);
    }
  }

  /** For every number of windows there is a run that reaches the bound of LockoutBound. */
  lemma {:induction false} LockoutBoundIsReached(s: State, code: Code, burst: nat, rounds: nat)
    requires WrongFor(s.user.account, code) && s.user.failures.None? && burst == MAX_FAILED_ATTEMPTS
    ensures var s' := Run(s, FullRounds(code, burst, rounds));
      && s'.now - s.now == FAIL_WINDOW_SECONDS * rounds
      && s'.wrong - s.wrong == MAX_FAILED_ATTEMPTS * (rounds + 1)
      && s'.user.account == s.user.account && CounterIs(s', s'.now, burst)
  {
    if rounds == 0 {
      WrongCodesCount(s, code, burst);
    } else {
      LockoutBoundIsReached(s, code, burst, rounds - 1);
      var before := FullRounds(code, burst, rounds - 1);
      var waited := before + [Wait(FAIL_WINDOW_SECONDS)];
      assert waited[..|before|] == before;
      var rested := Run(s, waited);
      assert CounterIs(rested, rested.now, 0);
      WrongCodesCount(rested, code, burst);
      FoldSplit(Step, s, waited, WrongCodes(code, burst));
    }
  }

  // ----- When a lock ends -----

  predicate LockedOut(user: User, now: nat) {
    user.account.enabled && user.account.secret.Some? && Visible(user.failures, now) >= MAX_FAILED_ATTEMPTS
  }

  lemma LockedVerifyChangesNothing(user: User, now: nat, code: Code, totpOk: bool, replies: Replies)
    requires LockedOut(user, now)
    ensures var (after, verdict) := Verify(user, now, code, totpOk, replies);
      after == user && verdict == if replies.check.Raised() then Unavailable else Locked
  {
  }

  lemma LockedStepChangesNoCounter(s: State, event: Event)
    requires LockedOut(s.user, s.now) && s.user.failures.value.expiresAt.None?
    ensures var s' := Step(s, event);
      LockedOut(s'.user, s'.now) && s'.user.failures == s.user.failures
  {
    if Verifies(event) {
      LockedVerifyChangesNothing(s.user, s.now, event.code, event.totpOk, event.replies);
      assert Step(s, event).user == s.user && Step(s, event).now == s.now;
    }
  }

  /** No operation of any kind ever ends a lock that has no deadline. */
  lemma {:induction false} NoDeadlineNeverUnlocks(s: State, events: seq<Event>)
    requires LockedOut(s.user, s.now) && s.user.failures.value.expiresAt.None?
    ensures var s' := Run(s, events);
      LockedOut(s'.user, s'.now) && s'.user.failures == s.user.failures
  {
    if events != [] {
      NoDeadlineNeverUnlocks(s, events[..|events| - 1]);
      LockedStepChangesNoCounter(Run(s, events[..|events| - 1]), events[|events| - 1]);
    }
  }

  /** The lock is temporary exactly when the counter has a deadline: with one, waiting is enough; without
      one, no sequence of operations and waits ever ends it, not even with valid codes. */
  lemma LockIsTemporaryIffDeadline(s: State)
    requires LockedOut(s.user, s.now)
    ensures s.user.failures.value.expiresAt.Some?
      <==> exists events: seq<Event> :: !LockedOut(Run(s, events).user, Run(s, events).now)
  {
    if s.user.failures.value.expiresAt.Some? {
      var wait := [Wait(s.user.failures.value.expiresAt.value)];
      FoldOne(Step, s, wait[0]);
      assert !LockedOut(Run(s, wait).user, Run(s, wait).now);
    } else {
      forall events: seq<Event> ensures LockedOut(Run(s, events).user, Run(s, events).now) {
        NoDeadlineNeverUnlocks(s, events);
      }
    }
  }

  /** The counter's deadline is as the failure that opened its window left it. */
  ghost predicate DeadlineFromOpening(s: State) {
    s.user.failures.Some? ==>
      && s.user.failures.value.count >= 1 && s.opening.Some?
      && (s.user.failures.value.expiresAt.Some? <==> s.opening.value.update.Answered? && s.opening.value.expire.Ran())
  }

  /** One failure: it opens a window, with a deadline exactly if INCR was answered and EXPIRE ran, or it
      counts in the open one and leaves the deadline alone. */
  lemma DeadlineIffExpireRan(failures: Option<Failures>, now: nat, replies: Replies)
    requires replies.update.Ran()
    ensures var after := RegisterFailure(failures, now, replies);
      && after.Some? && after.value.count == Visible(failures, now) + 1
      && if failures.None? || Expired(failures.value, now)
         then after.value.expiresAt.Some? <==> replies.update.Answered? && replies.expire.Ran()
         else failures.value.count > 0 ==> after.value.expiresAt == failures.value.expiresAt
  {
  }

  lemma VerifyKeepsOpening(s: State, code: Code, totpOk: bool, replies: Replies)
    requires DeadlineFromOpening(s)
    ensures DeadlineFromOpening(AfterVerify(s, code, totpOk, replies))
  {
    if replies.update.Ran() {
      DeadlineIffExpireRan(s.user.failures, s.now, replies);
    }
  }

  lemma StepKeepsOpening(s: State, event: Event)
    requires DeadlineFromOpening(s)
    ensures DeadlineFromOpening(Step(s, event))
  {
    if Verifies(event) {
      VerifyKeepsOpening(s, event.code, event.totpOk, event.replies);
    }
  }

  /** Over any run from a cleared counter, with any faults: the counter has a deadline if and only if, at the
      failure that opened its present window, INCR was answered and EXPIRE ran. */
  lemma {:induction false} DeadlineIffOpeningExpired(s: State, events: seq<Event>)
    requires s.user.failures.None?
    ensures DeadlineFromOpening(Run(s, events))
  {
    if events != [] {
      DeadlineIffOpeningExpired(s, events[..|events| - 1]);
      StepKeepsOpening(Run(s, events[..|events| - 1]), events[|events| - 1]);
    }
  }

  /** A wrong code whose EXPIRE is lost, and `more` wrong codes. */
  function LostExpire(code: Code, more: nat): seq<Event> {
    [VerifyEvent(code, false, Replies(Answered, Answered, Reply.Refused))] + WrongCodes(code, more)
  }

  lemma WrongCodeWithoutDeadline(s: State, code: Code, n: nat)
    requires WrongFor(s.user.account, code) && 1 <= n < MAX_FAILED_ATTEMPTS && s.user.failures == Some(Failures(n, None))
    ensures Step(s, VerifyEvent(code, false, NO_FAULTS)).user == User(s.user.account, Some(Failures(1 + n, None)))
  {
  }

  lemma {:induction false} CountsWithoutDeadline(s: State, code: Code, n: nat)
    requires WrongFor(s.user.account, code) && s.user.failures == Some(Failures(1, None)) && n < MAX_FAILED_ATTEMPTS
    ensures var s' := Run(s, WrongCodes(code, n));
      s'.user.account == s.user.account && s'.user.failures == Some(Failures(1 + n, None))
  {
    if n > 0 {
      CountsWithoutDeadline(s, code, n - 1);
      var before := Run(s, WrongCodes(code, n - 1));
      WrongCodeWithoutDeadline(before, code, n);
      LastWrongCode(s, code, n);
    }
  }

  /** Five wrong codes, of which the first loses its EXPIRE, lock the account for good, whatever follows. */
  lemma LostExpireLocksForGood(s: State, code: Code, more: nat, later: seq<Event>)
    requires WrongFor(s.user.account, code) && s.user.failures.None? && more == MAX_FAILED_ATTEMPTS - 1
    ensures var s' := Run(s, LostExpire(code, more) + later);
      LockedOut(s'.user, s'.now) && s'.user.failures.value.expiresAt.None?
  {
    var first := VerifyEvent(code, false, Replies(Answered, Answered, Reply.Refused));
    FoldOne(Step, s, first);
    var begun := Run(s, [first]);
    assert begun.user == User(s.user.account, Some(Failures(1, None)));
    CountsWithoutDeadline(begun, code, more);
    FoldSplit(Step, s, [first], WrongCodes(code, more));
    FoldSplit(Step, s, LostExpire(code, more), later);
    NoDeadlineNeverUnlocks(Run(s, LostExpire(code, more)), later);
  }

  // ----- What a code does -----

  /** A verification is accepted exactly on an enabled account that is not locked, with the lock check answered,
      for a valid TOTP code or a backup code that is stored. */
  lemma AcceptedIff(user: User, now: nat, code: Code, totpOk: bool, replies: Replies)
    ensures Verify(user, now, code, totpOk, replies).1.Accepted()
       <==> && user.account.enabled && user.account.secret.Some? && !LockedOut(user, now) && replies.check.Answered?
            && (totpOk || exists h :: h in StoredCodes(user.account) && h.code == code)
  {
    var hashed := StoredCodes(user.account);
    var i := FirstMatch(hashed, code);
    if i < |hashed| {
      assert hashed[i] in hashed;
    } else {
      forall h | h in hashed ensures h.code != code {
        var j :| 0 <= j < |hashed| && hashed[j] == h;
      }
    }
  }

  /** Why a code is not accepted: 2FA is off; Redis does not answer the lock check; the account is locked; or the
      code is wrong, and only then does anything change, the counter alone. */
  lemma RefusedBecause(user: User, now: nat, code: Code, totpOk: bool, replies: Replies)
    requires !Verify(user, now, code, totpOk, replies).1.Accepted()
    ensures var (after, verdict) := Verify(user, now, code, totpOk, replies);
      && (verdict.NotEnabled? <==> !user.account.enabled || user.account.secret.None?)
      && (verdict.Unavailable? <==> !verdict.NotEnabled? && replies.check.Raised())
      && (verdict.Locked? <==> !verdict.NotEnabled? && !verdict.Unavailable? && LockedOut(user, now))
      && (verdict.Wrong? <==> !verdict.NotEnabled? && !verdict.Unavailable? && !LockedOut(user, now))
      && after.account == user.account
      && (after.failures != user.failures ==> verdict.Wrong? && replies.update.Ran())
      && (verdict.Wrong? && replies.update.Ran() ==>
            after.failures.Some? && after.failures.value.count == Visible(user.failures, now) + 1)
  {
  }

  /** An accepted code clears the counter if DEL ran, and leaves it alone if not; a TOTP code spends nothing, a
      backup code itself, once. */
  lemma AcceptanceClears(user: User, now: nat, code: Code, totpOk: bool, replies: Replies)
    requires Verify(user, now, code, totpOk, replies).1.Accepted()
    ensures var after := Verify(user, now, code, totpOk, replies).0;
      && (replies.update.Ran() ==> after.failures.None? && Visible(after.failures, now) == 0 && !LockedOut(after, now))
      && (!replies.update.Ran() ==> after.failures == user.failures)
      && (totpOk ==> after.account == user.account)
      && (!totpOk ==> multiset(CodesOf(StoredCodes(user.account))) == multiset(CodesOf(StoredCodes(after.account))) + multiset{code})
  {
    if !totpOk {
      SpendingOne(StoredCodes(user.account), FirstMatch(StoredCodes(user.account), code));
    }
  }

  /** The counter shows no more failures than there have been. */
  ghost predicate CountsNoMore(s: State, s': State) {
    s.wrong <= s'.wrong && Visible(s'.user.failures, s'.now) <= s'.wrong - s.wrong
    && (s'.user.failures.Some? ==> s'.user.failures.value.count <= s'.wrong - s.wrong)
  }

  lemma VerifyCountsNoMore(s: State, t: State, code: Code, totpOk: bool, replies: Replies)
    requires CountsNoMore(s, t)
    ensures CountsNoMore(s, AfterVerify(t, code, totpOk, replies))
  {
  }

  lemma StepCountsNoMore(s: State, t: State, event: Event)
    requires CountsNoMore(s, t)
    ensures CountsNoMore(s, Step(t, event))
  {
    if Verifies(event) {
      VerifyCountsNoMore(s, t, event.code, event.totpOk, event.replies);
    }
  }

  lemma {:induction false} RunCountsNoMore(s: State, events: seq<Event>)
    requires s.user.failures.None?
    ensures CountsNoMore(s, Run(s, events))
  {
    if events != [] {
      RunCountsNoMore(s, events[..|events| - 1]);
      StepCountsNoMore(s, Run(s, events[..|events| - 1]), events[|events| - 1]);
    }
  }

  /** After an accepted code whose DEL ran, whatever follows, fewer than five failures do not lock the account. */
  lemma SuccessStartsAfresh(s: State, success: Event, events: seq<Event>)
    requires success.VerifyEvent? && success.replies.update.Ran()
    requires Verify(s.user, s.now, success.code, success.totpOk, success.replies).1.Accepted()
    ensures var (cleared, s') := (Step(s, success), Run(Step(s, success), events));
      s'.wrong - cleared.wrong < 5 ==> !LockedOut(s'.user, s'.now)
  {
    AcceptanceClears(s.user, s.now, success.code, success.totpOk, success.replies);
    RunCountsNoMore(Step(s, success), events);
  }

  /** A failed try, at login, disabling or regenerating. */
  predicate Try(event: Event) {
    event.VerifyEvent? || event.DisableEvent? || (event.RegenerateEvent? && |event.codes| == BACKUP_CODES_COUNT)
  }

  function Tries(events: seq<Event>): nat {
    if events == [] then 0 else Tries(events[..|events| - 1]) + if Try(events[|events| - 1]) then 1 else 0
  }

  /** `tries` failed tries since `s`, all in the first window. */
  ghost predicate Tried(s: State, t: State, tries: nat) {
    && t.user.account == s.user.account && s.now <= t.now
    && (if tries == 0 then t.user.failures.None?
        else
          && t.user.failures.Some? && t.user.failures.value.count == (if tries < 5 then tries else 5)
          && t.user.failures.value.expiresAt.Some? && t.user.failures.value.expiresAt.value >= s.now + 300)
  }

  /** A refused code does the same whatever it was for. */
  lemma TryIsVerification(t: State, event: Event)
    requires Try(event) && Failing(t.user.account, event) && t.user.account.enabled && t.user.account.secret.Some?
    requires event.replies == NO_FAULTS
    ensures Step(t, event).user == (if LockedOut(t.user, t.now) then t.user
                                    else t.user.(failures := RegisterFailure(t.user.failures, t.now, NO_FAULTS)))
    ensures Step(t, event).now == t.now
  {
  }

  lemma OneMoreTry(s: State, t: State, event: Event, tries: nat)
    requires Tried(s, t, tries) && t.now < s.now + 300
    requires s.user.account.enabled && s.user.account.secret.Some? && Failing(s.user.account, event)
    requires Try(event) && event.replies == NO_FAULTS
    ensures Tried(s, Step(t, event), tries + 1)
  {
    TryIsVerification(t, event);
  }

  lemma NoTryChangesNothing(t: State, event: Event)
    requires t.user.account.enabled && Failing(t.user.account, event) && !Try(event)
    ensures Step(t, event).user == t.user && t.now <= Step(t, event).now
  {
  }

  lemma TimePasses(s: State, event: Event)
    ensures s.now <= Step(s, event).now
  {
  }

  lemma {:induction false} FirstWindow(s: State, events: seq<Event>)
    requires s.user.account.enabled && s.user.account.secret.Some? && s.user.failures.None?
    requires forall e :: e in events ==> Failing(s.user.account, e) && (Verifies(e) ==> e.replies == NO_FAULTS)
    requires Run(s, events).now < s.now + 300
    ensures Tried(s, Run(s, events), Tries(events))
  {
    if events != [] {
      var (earlier, last) := (events[..|events| - 1], events[|events| - 1]);
      var before := Run(s, earlier);
      assert last in events;
      TimePasses(before, last);
      FirstWindow(s, earlier);
      if Try(last) {
        OneMoreTry(s, before, last, Tries(earlier));
      } else {
        NoTryChangesNothing(before, last);
      }
    }
  }

  /** From a cleared counter and within one window, failing tries lock the account exactly when there have been
      five: the fifth is still examined, the sixth is not. */
  lemma LockedIffFiveTries(s: State, events: seq<Event>)
    requires s.user.account.enabled && s.user.account.secret.Some? && s.user.failures.None?
    requires forall e :: e in events ==> Failing(s.user.account, e) && (Verifies(e) ==> e.replies == NO_FAULTS)
    requires Run(s, events).now < s.now + 300
    ensures LockedOut(Run(s, events).user, Run(s, events).now) <==> Tries(events) >= 5
  {
    FirstWindow(s, events);
  }

  /** A lock with its deadline lasts until that deadline, to the second. */
  lemma LockLastsToItsDeadline(user: User, now: nat)
    requires user.account.enabled && user.account.secret.Some?
    requires user.failures.Some? && user.failures.value.count >= 5 && user.failures.value.expiresAt.Some?
    ensures LockedOut(user, now) <==> now < user.failures.value.expiresAt.value
  {
  }

  /** Five wrong codes at once lock the account for exactly 300 seconds. */
  lemma FiveWrongCodesLockForFiveMinutes(s: State, code: Code, burst: nat, seconds: nat)
    requires WrongFor(s.user.account, code) && s.user.failures.None? && burst == 5
    ensures var s' := Run(s, WrongCodes(code, burst) + [Wait(seconds)]);
      LockedOut(s'.user, s'.now) <==> seconds < 300
  {
    WrongCodesCount(s, code, burst);
    var locked := Run(s, WrongCodes(code, burst));
    FoldAppend(Step, s, WrongCodes(code, burst), Wait(seconds));
    LockLastsToItsDeadline(locked.user, locked.now + seconds);
  }

  /** Enrolling and confirming with a valid code turns the second factor on with that secret and those codes,
      each of which is then accepted; disabling with an accepted code turns it off again, and then no code is. */
  lemma SecondFactorOnAndOff(user: User, now: nat, secret: nat, codes: seq<Code>, code: Code, replies: Replies)
    requires !user.account.enabled && user.failures.None? && replies.check.Answered?
    ensures var on := Confirm(Enroll(user, secret), true, codes);
      && on.account == Account(true, Some(secret), Some(Hashes(codes)))
      && (Verify(on, now, code, false, replies).1.AcceptedBackup? <==> code in codes)
      && Verify(on, now, code, true, replies).1.AcceptedTotp?
      && var off := Disable(on, now, code, true, replies);
         off.account == Account(false, None, None) && Verify(off, now, code, true, replies).1.NotEnabled?
  {
    var on := Confirm(Enroll(user, secret), true, codes);
    AcceptedIff(on, now, code, false, replies);
    if code in codes {
      var i :| 0 <= i < |codes| && codes[i] == code;
      assert Hashes(codes)[i] in StoredCodes(on.account);
    }
  }

  // ----- Overlapping verifications -----

  /** The counter, and the verifications that have passed the lock check and not yet settled. */
  datatype Flight = Flight(failures: Option<Failures>, now: nat, inFlight: nat)

  datatype FlightEvent =
    | Pass(seconds: nat)
    | Admit(check: Reply)
    | Fail(replies: Replies)
    | Succeed(replies: Replies)

  /** At most `overlap` verifications of one account are between the check and the increment. */
  function FlightStep(overlap: nat, f: Flight, event: FlightEvent): Flight {
    match event
    case Pass(seconds) => f.(now := f.now + seconds)
    case Admit(check) =>
      if check.Raised() || Visible(f.failures, f.now) >= MAX_FAILED_ATTEMPTS || f.inFlight >= overlap then f
      else f.(inFlight := f.inFlight + 1)
    case Fail(replies) =>
      if f.inFlight == 0 then f
      else f.(inFlight := f.inFlight - 1, failures := RegisterFailure(f.failures, f.now, replies))
    case Succeed(replies) =>
      if f.inFlight == 0 then f
      else f.(inFlight := f.inFlight - 1, failures := ClearFailures(f.failures, replies))
  }

  function RunFlight(overlap: nat, f: Flight, events: seq<FlightEvent>): Flight {
    if events == [] then f
    else FlightStep(overlap, RunFlight(overlap, f, events[..|events| - 1]), events[|events| - 1])
  }

  /** With at most `overlap` verifications in flight, in any interleaving and with any Redis faults, the
      counter and the verifications in flight never exceed 4 + `overlap` together. */
  lemma {:induction false} OverlappingVerificationsBound(overlap: nat, events: seq<FlightEvent>)
    requires overlap >= 1
    ensures var f := RunFlight(overlap, Flight(None, 0, 0), events);
      Visible(f.failures, f.now) + f.inFlight <= MAX_FAILED_ATTEMPTS - 1 + overlap
  {
    if events != [] {
      OverlappingVerificationsBound(overlap, events[..|events| - 1]);
    }
  }

  /** `n` verifications that all fail, one after another. */
  function OneByOne(n: nat): seq<FlightEvent> {
    if n == 0 then [] else OneByOne(n - 1) + [Admit(Answered), Fail(NO_FAULTS)]
  }

  /** Four failures, then `overlap` verifications admitted together, then all of them failing. */
  function Rush(overlap: nat, before: nat): seq<FlightEvent> {
    OneByOne(before) + Repeat(Admit(Answered), overlap) + Repeat(Fail(NO_FAULTS), overlap)
  }

  lemma RunFlightAppend(overlap: nat, f: Flight, events: seq<FlightEvent>, event: FlightEvent)
    ensures RunFlight(overlap, f, events + [event]) == FlightStep(overlap, RunFlight(overlap, f, events), event)
  {
    assert (events + [event])[..|events|] == events;
  }

  predicate FlightIs(f: Flight, counted: nat, inFlight: nat) {
    f.now == 0 && f.inFlight == inFlight
    && f.failures == if counted == 0 then None else Some(Failures(counted, Some(FAIL_WINDOW_SECONDS)))
  }

  lemma OneAdmits(overlap: nat, f: Flight, counted: nat, inFlight: nat)
    requires FlightIs(f, counted, inFlight) && counted < MAX_FAILED_ATTEMPTS && inFlight < overlap
    ensures FlightIs(FlightStep(overlap, f, Admit(Answered)), counted, inFlight + 1)
  {
  }

  lemma OneFails(overlap: nat, f: Flight, counted: nat, inFlight: nat)
    requires FlightIs(f, counted, inFlight) && inFlight > 0
    ensures FlightIs(FlightStep(overlap, f, Fail(NO_FAULTS)), counted + 1, inFlight - 1)
  {
  }

  lemma {:induction false} OneByOneCounts(overlap: nat, n: nat)
    requires overlap >= 1 && n < MAX_FAILED_ATTEMPTS
    ensures FlightIs(RunFlight(overlap, Flight(None, 0, 0), OneByOne(n)), n, 0)
  {
    if n > 0 {
      var (start, fewer) := (Flight(None, 0, 0), OneByOne(n - 1));
      OneByOneCounts(overlap, n - 1);
      OneAdmits(overlap, RunFlight(overlap, start, fewer), n - 1, 0);
      RunFlightAppend(overlap, start, fewer, Admit(Answered));
      OneFails(overlap, RunFlight(overlap, start, fewer + [Admit(Answered)]), n - 1, 1);
      RunFlightAppend(overlap, start, fewer + [Admit(Answered)], Fail(NO_FAULTS));
      assert OneByOne(n) == fewer + [Admit(Answered)] + [Fail(NO_FAULTS)];
    }
  }

  lemma {:induction false} AdmitsTogether(overlap: nat, events: seq<FlightEvent>, counted: nat, n: nat)
    requires n <= overlap && counted < MAX_FAILED_ATTEMPTS
    requires FlightIs(RunFlight(overlap, Flight(None, 0, 0), events), counted, 0)
    ensures FlightIs(RunFlight(overlap, Flight(None, 0, 0), events + Repeat(Admit(Answered), n)), counted, n)
  {
    if n == 0 {
      RepeatNone(events, Admit(Answered));
    } else {
      var earlier := events + Repeat(Admit(Answered), n - 1);
      AdmitsTogether(overlap, events, counted, n - 1);
      OneAdmits(overlap, RunFlight(overlap, Flight(None, 0, 0), earlier), counted, n - 1);
      RunFlightAppend(overlap, Flight(None, 0, 0), earlier, Admit(Answered));
      RepeatLast(events, Admit(Answered), n);
    }
  }

  lemma {:induction false} FailsTogether(overlap: nat, events: seq<FlightEvent>, counted: nat, inFlight: nat, n: nat)
    requires n <= inFlight
    requires FlightIs(RunFlight(overlap, Flight(None, 0, 0), events), counted, inFlight)
    ensures FlightIs(RunFlight(overlap, Flight(None, 0, 0), events + Repeat(Fail(NO_FAULTS), n)), counted + n, inFlight - n)
  {
    if n == 0 {
      RepeatNone(events, Fail(NO_FAULTS));
    } else {
      var earlier := events + Repeat(Fail(NO_FAULTS), n - 1);
      FailsTogether(overlap, events, counted, inFlight, n - 1);
      OneFails(overlap, RunFlight(overlap, Flight(None, 0, 0), earlier), counted + n - 1, inFlight - n + 1);
      RunFlightAppend(overlap, Flight(None, 0, 0), earlier, Fail(NO_FAULTS));
      RepeatLast(events, Fail(NO_FAULTS), n);
    }
  }

  /** The bound is reached for every overlap: that many failures are counted in one window. */
  lemma OverlappingBoundIsReached(overlap: nat, before: nat)
    requires overlap >= 1 && before == MAX_FAILED_ATTEMPTS - 1
    ensures var f := RunFlight(overlap, Flight(None, 0, 0), Rush(overlap, before));
      Visible(f.failures, f.now) == MAX_FAILED_ATTEMPTS - 1 + overlap && f.now == 0
  {
    OneByOneCounts(overlap, before);
    AdmitsTogether(overlap, OneByOne(before), before, overlap);
    FailsTogether(overlap, OneByOne(before) + Repeat(Admit(Answered), overlap), before, overlap, overlap);
  }
}
