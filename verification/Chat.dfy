/** Conversations between recruiters and freelancers (backend-core/src/chat/chat.service.ts). */
module Chat {
  import opened Basics
  import opened Entities
  import opened Sorting

  const MESSAGE_MAX_LENGTH: nat := 2000
  const HISTORY_LIMIT: nat := 50
  const ID_LENGTH: nat := 36

  /** User ids as the conversation ids embed them: UUID text, one length and no colon. */
  predicate IsUserId(id: string) {
    |id| == ID_LENGTH && ':' !in id
  }

  datatype Participant = Participant(userId: string, role: UserRole)

  datatype Account = Account(username: string, role: UserRole)

  datatype Message = Message(id: nat, conversationId: string, senderId: string, body: string, createdAt: nat)

  datatype Summary = Summary(conversationId: string, peerId: string, peer: Account, lastMessage: Message)

  datatype ChatError = BadRequest | NotFound | Forbidden

  datatype Result<+T> = Ok(value: T) | Failed(error: ChatError)

  // ----- Conversation ids -----

  /** The order of JavaScript's `sort()`: code unit by code unit. */
  predicate TextLe(a: string, b: string) {
    a == "" || (b != "" && (a[0] < b[0] || (a[0] == b[0] && TextLe(a[1..], b[1..]))))
  }

  lemma {:induction false} TextLeIsTotalOrder(a: string, b: string)
    ensures TextLe(a, b) || TextLe(b, a)
    ensures TextLe(a, b) && TextLe(b, a) ==> a == b
  {
    if a != "" && b != "" {
      TextLeIsTotalOrder(a[1..], b[1..]);
      assert a == [a[0]] + a[1..] && b == [b[0]] + b[1..];
    }
  }

  function ConversationId(a: string, b: string): string {
    if TextLe(a, b) then a + ":" + b else b + ":" + a
  }

  /** Text cut at every colon. */
  function Split(text: string): seq<string> {
    if text == "" then [""]
    else
      var rest := Split(text[1..]);
      if text[0] == ':' then [""] + rest
      else if rest == [] then [[text[0]]] else [[text[0]] + rest[0]] + rest[1..]
  }

  /** `find(id => id !== selfId)` over the parts. */
  function FirstOther(parts: seq<string>, selfId: string): Option<string> {
    if parts == [] then None
    else if parts[0] != selfId then Some(parts[0]) else FirstOther(parts[1..], selfId)
  }

  function OtherParticipant(conversationId: string, selfId: string): Option<string> {
    FirstOther(Split(conversationId), selfId)
  }

  predicate OccursAt(text: string, part: string, i: nat) {
    i + |part| <= |text| && text[i..i + |part|] == part
  }

  /** `$regex: userId`; a UUID holds no metacharacter, so this is substring search. */
  predicate Contains(text: string, part: string) {
    exists i :: 0 <= i <= |text| && OccursAt(text, part, i)
  }

  lemma {:induction false} SplitWithoutColon(text: string)
    requires ':' !in text
    ensures Split(text) == [text]
  {
    if text != "" {
      SplitWithoutColon(text[1..]);
      assert text == [text[0]] + text[1..];
    }
  }

  lemma {:induction false} SplitAtFirstColon(a: string, b: string)
    requires ':' !in a
    ensures Split(a + ":" + b) == [a] + Split(b)
  {
    var text := a + ":" + b;
    if a == "" {
      assert text[1..] == b;
    } else {
      assert text[1..] == a[1..] + ":" + b;
      assert a == [a[0]] + a[1..];
      SplitAtFirstColon(a[1..], b);
    }
  }

  lemma FirstOtherOfTwo(x: string, y: string, selfId: string)
    ensures FirstOther([x, y], selfId) == if x != selfId then Some(x) else if y != selfId then Some(y) else None
  {
    assert [x, y][1..] == [y];
    assert [y][1..] == [];
    assert FirstOther([y], selfId) == if y != selfId then Some(y) else None;
  }

  /** Both participants derive the same id, and from it each finds the other. */
  lemma OtherParticipantInverts(a: string, b: string)
    requires IsUserId(a) && IsUserId(b)
    ensures ConversationId(a, b) == ConversationId(b, a) == if TextLe(a, b) then a + ":" + b else b + ":" + a
    ensures OtherParticipant(ConversationId(a, b), a) == if a == b then None else Some(b)
  {
    TextLeIsTotalOrder(a, b);
    SplitWithoutColon(a);
    SplitWithoutColon(b);
    SplitAtFirstColon(a, b);
    SplitAtFirstColon(b, a);
    FirstOtherOfTwo(a, b, a);
    FirstOtherOfTwo(b, a, a);
    assert [a] + [b] == [a, b] && [b] + [a] == [b, a];
  }

  lemma ColonInside(text: string, part: string, i: nat)
    requires |part| == ID_LENGTH && OccursAt(text, part, i)
    requires 0 < i <= ID_LENGTH && text[ID_LENGTH] == ':'
    ensures ':' in part
  {
    assert part[ID_LENGTH - i] == text[ID_LENGTH];
  }

  lemma JoinedContains(first: string, second: string, id: string)
    requires IsUserId(first) && IsUserId(second) && IsUserId(id)
    ensures Contains(first + ":" + second, id) <==> id == first || id == second
  {
    var text := first + ":" + second;
    assert OccursAt(text, first, 0);
    assert OccursAt(text, second, ID_LENGTH + 1);
    if Contains(text, id) {
      var i :| 0 <= i <= |text| && OccursAt(text, id, i);
      if 0 < i <= ID_LENGTH {
        ColonInside(text, id, i);
      }
    }
  }

  /** Searching conversation ids for a user id finds exactly the conversations that user is in. */
  lemma ContainsExactlyParticipants(a: string, b: string, id: string)
    requires IsUserId(a) && IsUserId(b) && IsUserId(id)
    ensures Contains(ConversationId(a, b), id) <==> id == a || id == b
  {
    JoinedContains(a, b, id);
    JoinedContains(b, a, id);
  }

  /** No two pairs of users share a conversation id. */
  lemma ConversationIdIsInjective(a: string, b: string, c: string, d: string)
    requires IsUserId(a) && IsUserId(b) && IsUserId(c) && IsUserId(d)
    requires ConversationId(a, b) == ConversationId(c, d)
    ensures {a, b} == {c, d}
  {
    ContainsExactlyParticipants(a, b, a);
    ContainsExactlyParticipants(a, b, b);
    ContainsExactlyParticipants(a, b, c);
    ContainsExactlyParticipants(a, b, d);
    ContainsExactlyParticipants(c, d, a);
    ContainsExactlyParticipants(c, d, b);
    ContainsExactlyParticipants(c, d, c);
    ContainsExactlyParticipants(c, d, d);
  }

  // ----- Sending -----

  /** The white space that `trim()` removes. */
  predicate IsSpace(c: char) {
    c in {'\t', '\n', '\U{0B}', '\U{0C}', '\r', ' ', '\U{A0}', '\U{1680}', '\U{2028}', '\U{2029}',
          '\U{202F}', '\U{205F}', '\U{3000}', '\U{FEFF}'} || '\U{2000}' <= c <= '\U{200A}'
  }

  function TrimStart(s: string): string {
    if s != "" && IsSpace(s[0]) then TrimStart(s[1..]) else s
  }

  function TrimEnd(s: string): string {
    if s != "" && IsSpace(s[|s| - 1]) then TrimEnd(s[..|s| - 1]) else s
  }

  function Trim(s: string): string {
    TrimEnd(TrimStart(s))
  }

  /** `length` of a JavaScript string: a character beyond the basic plane takes two code units. */
  function Utf16Length(s: string): nat {
    if s == "" then 0 else Utf16Length(s[..|s| - 1]) + if s[|s| - 1] as int > 0xFFFF then 2 else 1
  }

  /** The target must exist, and the two roles must be one recruiter and one freelancer. */
  function PairRefusal(accounts: map<string, Account>, participant: Participant, otherId: string): Option<ChatError> {
    if otherId !in accounts then Some(NotFound)
    else if {participant.role, accounts[otherId].role} != {Recruiter, Freelance} then Some(Forbidden)
    else None
  }

  function SendRefusal(accounts: map<string, Account>, sender: Participant, toUserId: string, body: string): Option<ChatError> {
    if Trim(body) == "" || Utf16Length(Trim(body)) > MESSAGE_MAX_LENGTH then Some(BadRequest)
    else PairRefusal(accounts, sender, toUserId)
  }

  // ----- Reading -----

  predicate Newer(a: Message, b: Message) {
    a.createdAt >= b.createdAt
  }

  function InConversation(messages: seq<Message>, conversationId: string): seq<Message> {
    if messages == [] then []
    else (if messages[0].conversationId == conversationId then [messages[0]] else [])
         + InConversation(messages[1..], conversationId)
  }

  function Mentioning(messages: seq<Message>, userId: string): seq<Message> {
    if messages == [] then []
    else (if Contains(messages[0].conversationId, userId) then [messages[0]] else []) + Mentioning(messages[1..], userId)
  }

  function Reverse(messages: seq<Message>): seq<Message> {
    seq(|messages|, i requires 0 <= i < |messages| => messages[|messages| - 1 - i])
  }

  /** The fifty newest messages of a thread, oldest first. */
  function Thread(messages: seq<Message>, readerId: string, otherId: string): seq<Message> {
    var newestFirst := Sort(InConversation(messages, ConversationId(readerId, otherId)), Newer);
    Reverse(if |newestFirst| > HISTORY_LIMIT then newestFirst[..HISTORY_LIMIT] else newestFirst)
  }

  function History(accounts: map<string, Account>, messages: seq<Message>, reader: Participant, otherId: string): Result<seq<Message>> {
    var refusal := PairRefusal(accounts, reader, otherId);
    if refusal.Some? then Failed(refusal.value) else Ok(Thread(messages, reader.userId, otherId))
  }

  /** `$group` with `$first`: the first message of each conversation. */
  function FirstPerConversation(messages: seq<Message>): seq<Message> {
    if messages == [] then []
    else
      var last := messages[|messages| - 1];
      var before := messages[..|messages| - 1];
      FirstPerConversation(before)
      + if exists m :: m in before && m.conversationId == last.conversationId then [] else [last]
  }

  /** Rows whose peer still has an account. */
  function Summaries(accounts: map<string, Account>, rows: seq<Message>, readerId: string): seq<Summary> {
    if rows == [] then []
    else
      var last := rows[|rows| - 1];
      var other := OtherParticipant(last.conversationId, readerId);
      Summaries(accounts, rows[..|rows| - 1], readerId)
      + if other.Some? && other.value in accounts
        then [Summary(last.conversationId, other.value, accounts[other.value], last)] else []
  }

  function Conversations(accounts: map<string, Account>, messages: seq<Message>, readerId: string): seq<Summary> {
    Summaries(accounts, Sort(FirstPerConversation(Sort(Mentioning(messages, readerId), Newer)), Newer), readerId)
  }

  class ChatService {
    var messages: seq<Message>
    var accounts: map<string, Account>

    constructor (accounts: map<string, Account>)
      ensures messages == [] && this.accounts == accounts
    {
      messages := [];
      this.accounts := accounts;
    }

    method SendMessage(sender: Participant, toUserId: string, body: string, id: nat, now: nat) returns (result: Result<Message>)
      modifies this`messages
      ensures var refusal := SendRefusal(accounts, sender, toUserId, body);
        if refusal.Some? then result == Failed(refusal.value) && messages == old(messages)
        else
          && result == Ok(Message(id, ConversationId(sender.userId, toUserId), sender.userId, Trim(body), now))
          && messages == old(messages) + [result.value]
    {
      var trimmed := Trim(body);
      if trimmed == "" {
        return Failed(BadRequest);
      }
      if Utf16Length(trimmed) > MESSAGE_MAX_LENGTH {
        return Failed(BadRequest);
      }
      var refusal := PairRefusal(accounts, sender, toUserId);
      if refusal.Some? {
        return Failed(refusal.value);
      }
      var message := Message(id, ConversationId(sender.userId, toUserId), sender.userId, trimmed, now);
      messages := messages + [message];
      result := Ok(message);
    }
  }

  // ----- The two views agree -----

  lemma NewerIsTotalPreorder()
    ensures TotalPreorder(Newer)
  {
  }

  /** No two messages of the store share a timestamp. */
  ghost predicate DistinctTimes(messages: seq<Message>) {
    forall m, n :: m in messages && n in messages && m.createdAt == n.createdAt ==> m == n
  }

  ghost predicate NoRepeats(messages: seq<Message>) {
    forall i, j :: 0 <= i < j < |messages| ==> messages[i] != messages[j]
  }

  /** Every message lies in the conversation of two different users. */
  ghost predicate BetweenUsers(m: Message) {
    exists a, b :: IsUserId(a) && IsUserId(b) && a != b && m.conversationId == ConversationId(a, b)
  }

  /** `m` is the newest message of its conversation. */
  ghost predicate Newest(messages: seq<Message>, m: Message) {
    && m in messages
    && forall n :: n in messages && n.conversationId == m.conversationId ==> n.createdAt <= m.createdAt
  }

  lemma {:induction false} InConversationElements(messages: seq<Message>, conversationId: string)
    ensures forall m :: m in InConversation(messages, conversationId) <==> m in messages && m.conversationId == conversationId
  {
    if messages != [] {
      InConversationElements(messages[1..], conversationId);
      assert messages == [messages[0]] + messages[1..];
    }
  }

  lemma {:induction false} MentioningElements(messages: seq<Message>, userId: string)
    ensures forall m :: m in Mentioning(messages, userId) <==> m in messages && Contains(m.conversationId, userId)
  {
    if messages != [] {
      MentioningElements(messages[1..], userId);
      assert messages == [messages[0]] + messages[1..];
    }
  }

  lemma SortedElements(messages: seq<Message>)
    ensures SortedBy(Sort(messages, Newer), Newer)
    ensures forall m :: m in Sort(messages, Newer) <==> m in messages
  {
    NewerIsTotalPreorder();
    SortIsStableSort(messages, Newer);
    assert forall m :: m in Sort(messages, Newer) <==> m in multiset(Sort(messages, Newer));
  }

  /** The last entry of a non-empty history is the newest message of the thread. */
  lemma ThreadEndsWithNewest(messages: seq<Message>, readerId: string, otherId: string)
    ensures var thread := Thread(messages, readerId, otherId);
      && (thread == [] <==> InConversation(messages, ConversationId(readerId, otherId)) == [])
      && (thread != [] ==> Newest(messages, thread[|thread| - 1])
                           && thread[|thread| - 1].conversationId == ConversationId(readerId, otherId))
  {
    var own := InConversation(messages, ConversationId(readerId, otherId));
    var newestFirst := Sort(own, Newer);
    InConversationElements(messages, ConversationId(readerId, otherId));
    SortedElements(own);
    assert own != [] ==> own[0] in newestFirst;
    if newestFirst != [] {
      assert newestFirst[0] in own;
      forall n | n in own ensures n.createdAt <= newestFirst[0].createdAt {
        var i :| 0 <= i < |newestFirst| && newestFirst[i] == n;
      }
    }
  }

  ghost predicate OnePerConversation(messages: seq<Message>) {
    forall i, j :: 0 <= i < j < |messages| ==> messages[i].conversationId != messages[j].conversationId
  }

  ghost predicate HasConversation(messages: seq<Message>, conversationId: string) {
    exists m :: m in messages && m.conversationId == conversationId
  }

  /** Grouping a newest-first list keeps the newest message of each conversation, each once. */
  lemma {:induction false} FirstPerConversationElements(messages: seq<Message>)
    requires SortedBy(messages, Newer)
    ensures forall m :: m in FirstPerConversation(messages) ==> Newest(messages, m)
    ensures forall m :: m in messages ==> HasConversation(FirstPerConversation(messages), m.conversationId)
    ensures OnePerConversation(FirstPerConversation(messages))
  {
    if messages != [] {
      var n := |messages| - 1;
      var (before, last) := (messages[..n], messages[n]);
      FirstPerConversationElements(before);
      assert messages == before + [last];
      var (kept, all) := (FirstPerConversation(before), FirstPerConversation(messages));
      forall m | m in all ensures Newest(messages, m) {
        if m in kept {
          assert Newest(before, m);
          var i :| 0 <= i < n && messages[i] == m;
          assert Newer(messages[i], messages[n]);
        } else {
          assert m == last;
        }
      }
      forall m | m in messages ensures HasConversation(all, m.conversationId) {
        if HasConversation(kept, m.conversationId) {
          var r :| r in kept && r.conversationId == m.conversationId;
          assert r in all;
        } else {
          assert m !in before && m == last;
          assert last in all;
        }
      }
      forall m | m in kept ensures m in before {
        assert Newest(before, m);
      }
    }
  }

  lemma NoRepeatsTail(first: Message, rest: seq<Message>)
    ensures NoRepeats([first] + rest) <==> first !in rest && NoRepeats(rest)
  {
    var messages := [first] + rest;
    assert forall j :: 0 <= j < |rest| ==> messages[j + 1] == rest[j];
    if NoRepeats(messages) {
      forall j | 0 <= j < |rest| ensures rest[j] != first {
        assert messages[0] != messages[j + 1];
      }
      forall i, j | 0 <= i < j < |rest| ensures rest[i] != rest[j] {
        assert messages[i + 1] != messages[j + 1];
      }
    }
  }

  lemma {:induction false} NoRepeatsCount(messages: seq<Message>)
    ensures NoRepeats(messages) <==> forall m :: multiset(messages)[m] <= 1
  {
    if messages != [] {
      var (first, rest) := (messages[0], messages[1..]);
      assert messages == [first] + rest;
      NoRepeatsTail(first, rest);
      NoRepeatsCount(rest);
      assert forall m :: multiset(messages)[m] == multiset(rest)[m] + if m == first then 1 else 0;
    }
  }

  ghost predicate StrictlyNewestFirst(messages: seq<Message>) {
    forall i, j :: 0 <= i < j < |messages| ==> messages[i].createdAt > messages[j].createdAt
  }

  lemma SortDistinct(messages: seq<Message>)
    requires NoRepeats(messages) && DistinctTimes(messages)
    ensures StrictlyNewestFirst(Sort(messages, Newer))
  {
    var sorted := Sort(messages, Newer);
    SortedElements(messages);
    NewerIsTotalPreorder();
    SortIsStableSort(messages, Newer);
    NoRepeatsCount(messages);
    NoRepeatsCount(sorted);
    forall i, j | 0 <= i < j < |sorted| ensures sorted[i].createdAt > sorted[j].createdAt {
      assert sorted[i] in messages && sorted[j] in messages;
      assert sorted[i] != sorted[j];
    }
  }

  /** The rows of the aggregation: the newest message of each of the reader's conversations, each once,
      newest first. */
  lemma RowsOfReader(messages: seq<Message>, readerId: string)
    requires DistinctTimes(messages)
    ensures var rows := Sort(FirstPerConversation(Sort(Mentioning(messages, readerId), Newer)), Newer);
      && StrictlyNewestFirst(rows)
      && (forall m :: m in rows ==> Newest(messages, m) && Contains(m.conversationId, readerId))
      && (forall m :: m in messages && Contains(m.conversationId, readerId) ==> HasConversation(rows, m.conversationId))
  {
    var mine := Mentioning(messages, readerId);
    var sorted := Sort(mine, Newer);
    var firsts := FirstPerConversation(sorted);
    var rows := Sort(firsts, Newer);
    MentioningElements(messages, readerId);
    SortedElements(mine);
    FirstPerConversationElements(sorted);
    SortedElements(firsts);
    forall m | m in firsts ensures Newest(messages, m) && Contains(m.conversationId, readerId) {
      assert Newest(sorted, m);
      assert m in mine;
    }
    SortDistinct(firsts);
    forall m | m in messages && Contains(m.conversationId, readerId) ensures HasConversation(rows, m.conversationId) {
      assert m in sorted;
      var r :| r in firsts && r.conversationId == m.conversationId;
      assert r in rows;
    }
  }

  ghost predicate SummaryOf(accounts: map<string, Account>, readerId: string, m: Message, s: Summary) {
    && s.lastMessage == m && s.conversationId == m.conversationId
    && OtherParticipant(m.conversationId, readerId) == Some(s.peerId)
    && s.peerId in accounts && s.peer == accounts[s.peerId]
  }

  lemma {:induction false} SummariesElements(accounts: map<string, Account>, rows: seq<Message>, readerId: string)
    ensures var ss := Summaries(accounts, rows, readerId);
      && (forall s :: s in ss ==> s.lastMessage in rows && SummaryOf(accounts, readerId, s.lastMessage, s))
      && (forall m :: m in rows && OtherParticipant(m.conversationId, readerId).Some?
                      && OtherParticipant(m.conversationId, readerId).value in accounts
            ==> exists s :: s in ss && s.lastMessage == m)
  {
    if rows != [] {
      var n := |rows| - 1;
      SummariesElements(accounts, rows[..n], readerId);
      assert rows == rows[..n] + [rows[n]];
      var (before, ss) := (Summaries(accounts, rows[..n], readerId), Summaries(accounts, rows, readerId));
      forall m | m in rows && OtherParticipant(m.conversationId, readerId).Some?
                 && OtherParticipant(m.conversationId, readerId).value in accounts
        ensures exists s :: s in ss && s.lastMessage == m
      {
        if m in rows[..n] {
          var s :| s in before && s.lastMessage == m;
          assert s in ss;
        } else {
          assert m == rows[n];
          assert ss[|ss| - 1].lastMessage == m;
        }
      }
    }
  }

  lemma {:induction false} SummariesInOrder(accounts: map<string, Account>, rows: seq<Message>, readerId: string)
    requires StrictlyNewestFirst(rows)
    ensures var ss := Summaries(accounts, rows, readerId);
      forall i, j :: 0 <= i < j < |ss| ==> ss[i].lastMessage.createdAt > ss[j].lastMessage.createdAt
  {
    if rows != [] {
      var n := |rows| - 1;
      SummariesInOrder(accounts, rows[..n], readerId);
      SummariesElements(accounts, rows[..n], readerId);
      var before := Summaries(accounts, rows[..n], readerId);
      forall i | 0 <= i < |before| ensures before[i].lastMessage.createdAt > rows[n].createdAt {
        assert before[i] in before;
        var k :| 0 <= k < n && rows[k] == before[i].lastMessage;
      }
    }
  }

  /** What a summary of the reader's list says. */
  ghost predicate SummaryIsRight(accounts: map<string, Account>, messages: seq<Message>, readerId: string, s: Summary) {
    var thread := Thread(messages, readerId, s.peerId);
    && s.conversationId == ConversationId(readerId, s.peerId)
    && s.peerId in accounts && s.peer == accounts[s.peerId] && s.peerId != readerId
    && thread != [] && s.lastMessage == thread[|thread| - 1]
  }

  lemma PeerOfReader(accounts: map<string, Account>, readerId: string, s: Summary)
    requires IsUserId(readerId) && SummaryOf(accounts, readerId, s.lastMessage, s)
    requires Contains(s.conversationId, readerId) && BetweenUsers(s.lastMessage)
    ensures s.peerId != readerId && s.conversationId == ConversationId(readerId, s.peerId)
  {
    var a, b :| IsUserId(a) && IsUserId(b) && a != b && s.conversationId == ConversationId(a, b);
    ContainsExactlyParticipants(a, b, readerId);
    OtherParticipantInverts(a, b);
    OtherParticipantInverts(b, a);
  }

  lemma SummaryMatchesThread(accounts: map<string, Account>, messages: seq<Message>, readerId: string, s: Summary)
    requires IsUserId(readerId) && DistinctTimes(messages)
    requires SummaryOf(accounts, readerId, s.lastMessage, s)
    requires Newest(messages, s.lastMessage) && Contains(s.conversationId, readerId) && BetweenUsers(s.lastMessage)
    ensures SummaryIsRight(accounts, messages, readerId, s)
  {
    PeerOfReader(accounts, readerId, s);
    ThreadEndsWithNewest(messages, readerId, s.peerId);
    InConversationElements(messages, s.conversationId);
    assert s.lastMessage in InConversation(messages, s.conversationId);
  }

  lemma RowOfPeer(messages: seq<Message>, readerId: string, other: string) returns (m: Message)
    requires IsUserId(readerId) && IsUserId(other) && DistinctTimes(messages)
    requires Thread(messages, readerId, other) != []
    ensures m in Sort(FirstPerConversation(Sort(Mentioning(messages, readerId), Newer)), Newer)
    ensures m.conversationId == ConversationId(readerId, other)
  {
    var thread := Thread(messages, readerId, other);
    ThreadEndsWithNewest(messages, readerId, other);
    ContainsExactlyParticipants(readerId, other, readerId);
    RowsOfReader(messages, readerId);
    var last := thread[|thread| - 1];
    var rows := Sort(FirstPerConversation(Sort(Mentioning(messages, readerId), Newer)), Newer);
    m :| m in rows && m.conversationId == last.conversationId;
  }

  /** The list and the threads agree: it names each user the reader has a non-empty thread with and whose
      account still exists, once, newest first, and shows the very message that thread's history ends with. */
  lemma ConversationsMatchThreads(accounts: map<string, Account>, messages: seq<Message>, readerId: string)
    requires IsUserId(readerId) && forall id :: id in accounts ==> IsUserId(id)
    requires DistinctTimes(messages) && forall m :: m in messages ==> BetweenUsers(m)
    ensures var list := Conversations(accounts, messages, readerId);
      && (forall s :: s in list ==> SummaryIsRight(accounts, messages, readerId, s))
      && (forall other :: other in accounts && other != readerId ==>
            (Thread(messages, readerId, other) != [] <==> exists s :: s in list && s.peerId == other))
      && (forall i, j :: 0 <= i < j < |list| ==>
            list[i].lastMessage.createdAt > list[j].lastMessage.createdAt && list[i].peerId != list[j].peerId)
  {
    var rows := Sort(FirstPerConversation(Sort(Mentioning(messages, readerId), Newer)), Newer);
    var list := Conversations(accounts, messages, readerId);
    RowsOfReader(messages, readerId);
    SummariesElements(accounts, rows, readerId);
    SummariesInOrder(accounts, rows, readerId);
    forall s | s in list ensures SummaryIsRight(accounts, messages, readerId, s) {
      SummaryMatchesThread(accounts, messages, readerId, s);
    }
    forall other | other in accounts && other != readerId && Thread(messages, readerId, other) != []
      ensures exists s :: s in list && s.peerId == other
    {
      var m := RowOfPeer(messages, readerId, other);
      OtherParticipantInverts(readerId, other);
      var s :| s in list && s.lastMessage == m;
    }
    forall i, j | 0 <= i < j < |list| ensures list[i].peerId != list[j].peerId {
      assert SummaryIsRight(accounts, messages, readerId, list[i]);
      assert SummaryIsRight(accounts, messages, readerId, list[j]);
    }
  }

  /** `roles` is the role of every user there ever was; a message joins a recruiter and a freelancer. */
  ghost predicate BetweenPair(roles: map<string, UserRole>, m: Message) {
    exists a, b :: a in roles && b in roles && {roles[a], roles[b]} == {Recruiter, Freelance} && m.conversationId == ConversationId(a, b)
  }

  /** Accounts may be gone, but nobody changes role. */
  ghost predicate RolesAreFixed(roles: map<string, UserRole>, accounts: map<string, Account>) {
    && (forall id :: id in roles ==> IsUserId(id))
    && (forall id :: id in accounts ==> id in roles && roles[id] == accounts[id].role)
  }

  /** A token carries the role its user has, so a message the service stores joins such a pair. */
  lemma SentMessageJoinsAPair(roles: map<string, UserRole>, accounts: map<string, Account>, sender: Participant, toUserId: string,
                              body: string, id: nat, now: nat)
    requires RolesAreFixed(roles, accounts)
    requires sender.userId in roles && roles[sender.userId] == sender.role
    requires SendRefusal(accounts, sender, toUserId, body).None?
    ensures BetweenPair(roles, Message(id, ConversationId(sender.userId, toUserId), sender.userId, Trim(body), now))
  {
  }

  lemma PairIsTwoUsers(roles: map<string, UserRole>, m: Message)
    requires BetweenPair(roles, m) && forall id :: id in roles ==> IsUserId(id)
    ensures BetweenUsers(m)
  {
    var a, b :| a in roles && b in roles && {roles[a], roles[b]} == {Recruiter, Freelance} && m.conversationId == ConversationId(a, b);
    assert Recruiter in {roles[a], roles[b]} && Freelance in {roles[a], roles[b]};
    assert a != b;
  }

  lemma PairOfSameUsers(roles: map<string, UserRole>, a: string, b: string, c: string, d: string)
    requires a in roles && b in roles && c in roles && d in roles && {a, b} == {c, d}
    requires {roles[a], roles[b]} == {Recruiter, Freelance}
    ensures {roles[c], roles[d]} == {Recruiter, Freelance} && c != d
  {
    assert Recruiter in {roles[a], roles[b]} && Freelance in {roles[a], roles[b]};
    assert a in {c, d} && b in {c, d} && c in {a, b} && d in {a, b};
  }

  /** A thread with a message in it belongs to a pair that may read it. */
  lemma ThreadIsReadable(roles: map<string, UserRole>, accounts: map<string, Account>, messages: seq<Message>,
                         reader: Participant, other: string)
    requires RolesAreFixed(roles, accounts) && forall m :: m in messages ==> BetweenPair(roles, m)
    requires reader.userId in roles && roles[reader.userId] == reader.role
    requires other in accounts && Thread(messages, reader.userId, other) != []
    ensures other != reader.userId && PairRefusal(accounts, reader, other).None?
  {
    var thread := Thread(messages, reader.userId, other);
    ThreadEndsWithNewest(messages, reader.userId, other);
    var m := thread[|thread| - 1];
    var a, b :| a in roles && b in roles && {roles[a], roles[b]} == {Recruiter, Freelance} && m.conversationId == ConversationId(a, b);
    ConversationIdIsInjective(a, b, reader.userId, other);
    PairOfSameUsers(roles, a, b, reader.userId, other);
  }

  /** The user may read the history with the peer, and it has a message. */
  predicate HasHistory(accounts: map<string, Account>, messages: seq<Message>, reader: Participant, other: string) {
    History(accounts, messages, reader, other).Ok? && History(accounts, messages, reader, other).value != []
  }

  /** What the list says of a peer is what the history with that peer says. */
  ghost predicate SummaryShowsHistory(accounts: map<string, Account>, messages: seq<Message>, reader: Participant, s: Summary) {
    && HasHistory(accounts, messages, reader, s.peerId)
    && s.peer == accounts[s.peerId] && s.conversationId == ConversationId(reader.userId, s.peerId)
    && var thread := History(accounts, messages, reader, s.peerId).value;
       s.lastMessage == thread[|thread| - 1]
  }

  /** The list and the histories agree, role check included: it names each user with whom the reader gets a
      non-empty history, once, newest first, and shows the very message that this history ends with. */
  lemma ConversationsMatchHistory(roles: map<string, UserRole>, accounts: map<string, Account>, messages: seq<Message>, reader: Participant)
    requires RolesAreFixed(roles, accounts) && forall m :: m in messages ==> BetweenPair(roles, m)
    requires reader.userId in roles && roles[reader.userId] == reader.role && DistinctTimes(messages)
    ensures var list := Conversations(accounts, messages, reader.userId);
      && (forall s :: s in list ==> SummaryShowsHistory(accounts, messages, reader, s))
      && (forall other :: HasHistory(accounts, messages, reader, other) <==> exists s :: s in list && s.peerId == other)
      && (forall i, j :: 0 <= i < j < |list| ==>
            list[i].lastMessage.createdAt > list[j].lastMessage.createdAt && list[i].peerId != list[j].peerId)
  {
    var list := Conversations(accounts, messages, reader.userId);
    forall m | m in messages ensures BetweenUsers(m) {
      PairIsTwoUsers(roles, m);
    }
    ConversationsMatchThreads(accounts, messages, reader.userId);
    forall s | s in list ensures SummaryShowsHistory(accounts, messages, reader, s) {
      assert SummaryIsRight(accounts, messages, reader.userId, s);
      ThreadIsReadable(roles, accounts, messages, reader, s.peerId);
    }
    forall other ensures HasHistory(accounts, messages, reader, other) <==> exists s :: s in list && s.peerId == other {
      if HasHistory(accounts, messages, reader, other) {
        ThreadIsReadable(roles, accounts, messages, reader, other);
      }
      if s :| s in list && s.peerId == other {
        assert SummaryShowsHistory(accounts, messages, reader, s);
      }
    }
  }

  // ----- The whole history -----

  lemma {:induction false} InConversationCounts(messages: seq<Message>, conversationId: string, m: Message)
    ensures multiset(InConversation(messages, conversationId))[m]
         == if m.conversationId == conversationId then multiset(messages)[m] else 0
  {
    if messages != [] {
      InConversationCounts(messages[1..], conversationId, m);
      assert messages == [messages[0]] + messages[1..];
    }
  }

  lemma ReverseKeepsElements(messages: seq<Message>)
    ensures multiset(Reverse(messages)) == multiset(messages)
    ensures forall i :: 0 <= i < |messages| ==> Reverse(messages)[i] == messages[|messages| - 1 - i]
  {
    if messages != [] {
      var n := |messages| - 1;
      ReverseKeepsElements(messages[..n]);
      assert messages == messages[..n] + [messages[n]];
      assert Reverse(messages) == [messages[n]] + Reverse(messages[..n]);
    }
  }

  lemma SortedNewestFirst(own: seq<Message>, sorted: seq<Message>)
    requires sorted == Sort(own, Newer)
    ensures SortedBy(sorted, Newer) && multiset(sorted) == multiset(own) && |sorted| == |own|
  {
    NewerIsTotalPreorder();
    SortIsStableSort(own, Newer);
    assert |sorted| == |multiset(sorted)| == |multiset(own)| == |own|;
  }

  lemma ReversedAscends(shown: seq<Message>)
    requires SortedBy(shown, Newer)
    ensures forall i, j :: 0 <= i < j < |shown| ==> Reverse(shown)[i].createdAt <= Reverse(shown)[j].createdAt
  {
  }

  lemma SplitOfSorted(sorted: seq<Message>, kept: nat)
    requires SortedBy(sorted, Newer) && kept <= |sorted|
    ensures multiset(sorted[..kept]) <= multiset(sorted)
    ensures forall m, s :: m in multiset(sorted) - multiset(sorted[..kept]) && s in multiset(sorted[..kept]) ==> m.createdAt <= s.createdAt
  {
    var (shown, hidden) := (sorted[..kept], sorted[kept..]);
    assert sorted == shown + hidden;
    forall m, s | m in hidden && s in shown ensures m.createdAt <= s.createdAt {
      var i :| 0 <= i < kept && shown[i] == s;
      var j :| 0 <= j < |hidden| && hidden[j] == m;
      assert sorted[i] == s && sorted[kept + j] == m;
    }
  }

  lemma NewestOfSorted(own: seq<Message>, sorted: seq<Message>, kept: nat)
    requires SortedBy(sorted, Newer) && multiset(sorted) == multiset(own) && kept <= |sorted|
    ensures var thread := Reverse(sorted[..kept]);
      && (forall i, j :: 0 <= i < j < |thread| ==> thread[i].createdAt <= thread[j].createdAt)
      && multiset(thread) <= multiset(own)
      && forall m, shown :: m in multiset(own) - multiset(thread) && shown in multiset(thread) ==> m.createdAt <= shown.createdAt
  {
    ReversedAscends(sorted[..kept]);
    ReverseKeepsElements(sorted[..kept]);
    SplitOfSorted(sorted, kept);
    assert multiset(own) - multiset(Reverse(sorted[..kept])) == multiset(sorted) - multiset(sorted[..kept]);
  }

  /** The history of two users is the fifty newest messages between them, or all of them if they are fewer,
      oldest first: nothing else, each as often as it was sent, and nothing left out is newer. */
  lemma ThreadIsNewestFifty(messages: seq<Message>, readerId: string, otherId: string)
    ensures var (thread, own) := (Thread(messages, readerId, otherId), InConversation(messages, ConversationId(readerId, otherId)));
      && |thread| == (if |own| < 50 then |own| else 50)
      && (forall i, j :: 0 <= i < j < |thread| ==> thread[i].createdAt <= thread[j].createdAt)
      && multiset(thread) <= multiset(own)
      && (forall m, shown :: m in multiset(own) - multiset(thread) && shown in multiset(thread) ==> m.createdAt <= shown.createdAt)
      && (forall m: Message :: multiset(own)[m] == if m.conversationId == ConversationId(readerId, otherId) then multiset(messages)[m] else 0)
  {
    var own := InConversation(messages, ConversationId(readerId, otherId));
    forall m: Message ensures multiset(own)[m] == if m.conversationId == ConversationId(readerId, otherId) then multiset(messages)[m] else 0 {
      InConversationCounts(messages, ConversationId(readerId, otherId), m);
    }
    var sorted := Sort(own, Newer);
    SortedNewestFirst(own, sorted);
    NewestOfSorted(own, sorted, if |sorted| > HISTORY_LIMIT then HISTORY_LIMIT else |sorted|);
    assert sorted[..|sorted|] == sorted;
  }

  /** A message newer than all others ends the thread it belongs to, as either user reads it. */
  lemma SentMessageIsRead(messages: seq<Message>, m: Message, a: string, b: string)
    requires m.conversationId == ConversationId(a, b)
    requires forall n :: n in messages ==> n.createdAt < m.createdAt
    ensures var thread := Thread(messages + [m], a, b);
      thread != [] && thread[|thread| - 1] == m
  {
    var all := messages + [m];
    InConversationElements(all, m.conversationId);
    assert m in all && all[|messages|] == m;
    assert m in InConversation(all, m.conversationId);
    ThreadEndsWithNewest(all, a, b);
    var thread := Thread(all, a, b);
    assert thread[|thread| - 1].createdAt >= m.createdAt;
    assert thread[|thread| - 1] in all;
    assert forall n :: n in all ==> n in messages || n == m;
  }

  // ----- What may be sent -----

  lemma {:induction false} TrimStartCuts(s: string) returns (i: nat)
    ensures i <= |s| && TrimStart(s) == s[i..] && forall k :: 0 <= k < i ==> IsSpace(s[k])
    ensures TrimStart(s) != "" ==> !IsSpace(TrimStart(s)[0])
  {
    i := 0;
    if s != "" && IsSpace(s[0]) {
      var rest := TrimStartCuts(s[1..]);
      i := rest + 1;
    }
  }

  lemma {:induction false} TrimEndCuts(s: string) returns (j: nat)
    ensures j <= |s| && TrimEnd(s) == s[..j] && forall k :: j <= k < |s| ==> IsSpace(s[k])
    ensures TrimEnd(s) != "" ==> !IsSpace(TrimEnd(s)[|TrimEnd(s)| - 1])
  {
    j := |s|;
    if s != "" && IsSpace(s[|s| - 1]) {
      j := TrimEndCuts(s[..|s| - 1]);
    }
  }

  /** Trimming cuts exactly the white space at both ends. */
  lemma TrimCutsWhiteSpace(s: string) returns (i: nat, j: nat)
    ensures i <= j <= |s| && Trim(s) == s[i..j]
    ensures forall k :: 0 <= k < i || j <= k < |s| ==> IsSpace(s[k])
    ensures i < j ==> !IsSpace(s[i]) && !IsSpace(s[j - 1])
  {
    i := TrimStartCuts(s);
    var length := TrimEndCuts(s[i..]);
    j := i + length;
    assert s[i..][..length] == s[i..j];
    forall k | j <= k < |s| ensures IsSpace(s[k]) {
      assert s[i..][k - i] == s[k];
    }
  }

  lemma {:induction false} Utf16LengthBounds(s: string)
    ensures |s| <= Utf16Length(s) <= 2 * |s|
    ensures (forall k :: 0 <= k < |s| ==> s[k] as int <= 0xFFFF) <==> Utf16Length(s) == |s|
    ensures (forall k :: 0 <= k < |s| ==> s[k] as int > 0xFFFF) <==> Utf16Length(s) == 2 * |s|
  {
    if s != "" {
      var n := |s| - 1;
      Utf16LengthBounds(s[..n]);
      assert s == s[..n] + [s[n]];
    }
  }

  /** A message is refused first for a body that is blank or longer than 2000 code units once trimmed, then for a
      target that does not exist, then for two roles other than a recruiter's and a freelancer's; otherwise it is
      sent. */
  lemma RefusedInOrder(accounts: map<string, Account>, sender: Participant, toUserId: string, body: string)
    ensures var blank := forall k :: 0 <= k < |body| ==> IsSpace(body[k]);
      SendRefusal(accounts, sender, toUserId, body) ==
        if blank || Utf16Length(Trim(body)) > 2000 then Some(BadRequest)
        else if toUserId !in accounts then Some(NotFound)
        else if (sender.role == Recruiter && accounts[toUserId].role == Freelance)
             || (sender.role == Freelance && accounts[toUserId].role == Recruiter) then None
        else Some(Forbidden)
  {
    var i, j := TrimCutsWhiteSpace(body);
    if toUserId in accounts {
      var (one, other) := (sender.role, accounts[toUserId].role);
      assert {one, other} == {Recruiter, Freelance} ==> one in {Recruiter, Freelance} && other in {Recruiter, Freelance};
      assert {one, other} == {Recruiter, Freelance} ==> Recruiter in {one, other} && Freelance in {one, other};
    }
  }
}
