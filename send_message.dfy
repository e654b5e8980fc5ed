/**
 * The notification gate in front of the Telegram bot: a queue that remembers
 * recently sent texts (content de-duplication with lazy expiry) and a single
 * rate limiter shared by all texts.
 *
 * The wall clock (`Date.now()`) is an explicit `now` argument. `QueueState`
 * is the value a `MessageQueue` object holds; the functions over it
 * (`Sweep`, `AddStep`, `Swept`, `Cleared`) say what each method does, and the
 * lemmas at the end state what the gate promises over whole call sequences.
 */
module SendMessage {
  import opened Wrappers

  /** Thirty minutes: how long a recorded text suppresses its repetitions. */
  const DefaultExpirationMs: int := 30 * 60 * 1000
  /** Five seconds: the least spacing between two admitted texts. */
  const DefaultRateLimitMs: int := 5000

  /** What `add` reports to its caller. */
  datatype AddResult = AddResult(canSend: bool, isNewMessage: bool)

  /** The fields of a `MessageQueue`, as one value. */
  datatype QueueState = QueueState(
    messages: map<string, int>,   // text -> time it was recorded
    expirationTime: int,
    lastSentTime: int,
    rateLimitMs: int)

  /** A freshly constructed queue. */
  function InitialState(expirationTimeMs: int, rateLimitMs: int): QueueState
  {
    QueueState(map[], expirationTimeMs, 0, rateLimitMs)
  }

  /** A text recorded at `timestamp` has expired at `now`. */
  predicate Expired(now: int, timestamp: int, expirationTime: int)
  {
    now - timestamp >= expirationTime
  }

  /** The records that survive a sweep at `now`. */
  function Sweep(messages: map<string, int>, now: int, expirationTime: int): (r: map<string, int>)
    ensures forall k :: k in r <==> k in messages && !Expired(now, messages[k], expirationTime)
    ensures forall k :: k in r ==> r[k] == messages[k]
  {
    map k | k in messages && now - messages[k] < expirationTime :: messages[k]
  }

  /** The rate limiter admits a send at `now`. */
  predicate RateAllows(lastSentTime: int, rateLimitMs: int, now: int)
  {
    now - lastSentTime >= rateLimitMs
  }

  /** The state after the sweep that starts `add` and `has`. */
  function Swept(s: QueueState, now: int): QueueState
  {
    s.(messages := Sweep(s.messages, now, s.expirationTime))
  }

  /** The state after `clear`. */
  function Cleared(s: QueueState): QueueState
  {
    s.(messages := map[], lastSentTime := 0)
  }

  /** The answer of `add` together with the state it leaves behind. */
  datatype AddOutcome = AddOutcome(result: AddResult, next: QueueState)

  /** One `add(message)` at time `now`. */
  function AddStep(s: QueueState, message: string, now: int): (o: AddOutcome)
    ensures o.next.expirationTime == s.expirationTime && o.next.rateLimitMs == s.rateLimitMs
    ensures o.result.isNewMessage <==> message !in Sweep(s.messages, now, s.expirationTime)
    ensures o.result.canSend <==> o.result.isNewMessage && RateAllows(s.lastSentTime, s.rateLimitMs, now)
    ensures message in o.next.messages <==> !o.result.isNewMessage || o.result.canSend
    ensures o.next.lastSentTime == (if o.result.canSend then now else s.lastSentTime)
  {
    var t := Swept(s, now);
    if message in t.messages then
      AddOutcome(AddResult(false, false), t)
    else if RateAllows(t.lastSentTime, t.rateLimitMs, now) then
      AddOutcome(AddResult(true, true), t.(messages := t.messages[message := now], lastSentTime := now))
    else
      AddOutcome(AddResult(false, true), t)
  }

  /** The mutable queue itself. */
  class MessageQueue {
    var messages: map<string, int>
    const expirationTime: int
    var lastSentTime: int
    const rateLimitMs: int

    ghost function State(): QueueState
      reads this
    {
      QueueState(messages, expirationTime, lastSentTime, rateLimitMs)
    }

    constructor (expirationTimeMs: int := DefaultExpirationMs, rateLimitMs: int := DefaultRateLimitMs)
      ensures State() == InitialState(expirationTimeMs, rateLimitMs)
    {
      messages := map[];
      expirationTime := expirationTimeMs;
      lastSentTime := 0;
      this.rateLimitMs := rateLimitMs;
    }

    /** The rate-limit check; on success it takes the slot by moving `lastSentTime` to `now`. */
    method CanSend(now: int) returns (ok: bool)
      modifies this
      ensures ok == RateAllows(old(lastSentTime), rateLimitMs, now)
      ensures lastSentTime == (if ok then now else old(lastSentTime))
      ensures messages == old(messages)
    {
      if now - lastSentTime >= rateLimitMs {
        lastSentTime := now;
        return true;
      }
      return false;
    }

    /** Deletes, entry by entry, every record that has expired at `now`. */
    method CleanExpiredMessages(now: int)
      modifies this
      ensures messages == Sweep(old(messages), now, expirationTime)
      ensures lastSentTime == old(lastSentTime)
    {
      ghost var before := messages;
      var pending := messages.Keys;
      while pending != {}
        invariant pending <= before.Keys
        invariant messages.Keys <= before.Keys
        invariant forall k :: k in messages ==> messages[k] == before[k]
        invariant forall k :: k in pending ==> k in messages
        invariant forall k :: k in before && k !in pending ==>
                    (k in messages <==> !Expired(now, before[k], expirationTime))
        invariant lastSentTime == old(lastSentTime)
        decreases pending
      {
        var message :| message in pending;
        if now - messages[message] >= expirationTime {
          messages := messages - {message};
        }
        pending := pending - {message};
      }
      assert messages == Sweep(before, now, expirationTime);
    }

    /** Offers `message` for sending at `now`. */
    method Add(message: string, now: int) returns (r: AddResult)
      modifies this
      ensures AddOutcome(r, State()) == AddStep(old(State()), message, now)
    {
      CleanExpiredMessages(now);
      var isNewMessage := message !in messages;
      if !isNewMessage {
        return AddResult(false, false);
      }
      var canSendNow := CanSend(now);
      if canSendNow {
        messages := messages[message := now];
      }
      return AddResult(canSendNow, true);
    }

    /** Whether `message` is recorded, after sweeping at `now`. */
    method Has(message: string, now: int) returns (b: bool)
      modifies this
      ensures State() == Swept(old(State()), now)
      ensures b <==> message in State().messages
    {
      CleanExpiredMessages(now);
      b := message in messages;
    }

    /** Forgets every record and resets the rate limiter. */
    method Clear()
      modifies this
      ensures State() == Cleared(old(State()))
    {
      messages := map[];
      lastSentTime := 0;
    }
  }

  // ---------------------------------------------------------------------------
  // Sending through the gate

  /** The outbound Telegram endpoint: the texts posted to it, in order. */
  class Outbox {
    var posted: seq<string>

    constructor ()
      ensures posted == []
    {
      posted := [];
    }

    /** One POST to `sendMessage`; whether Telegram accepted it is `accepted`. */
    method Post(text: string, accepted: bool) returns (ok: bool)
      modifies this
      ensures posted == old(posted) + [text]
      ensures ok == accepted
    {
      posted := posted + [text];
      ok := accepted;
    }
  }

  /** How one call of `sendTelegramMessage` ended. */
  datatype SendOutcome =
    | MissingBotToken
    | MissingChatId
    | AlreadyQueued
    | RateLimited
    | Delivered
    | DeliveryFailed

  /** An environment variable counts as set when it is present and not empty. */
  predicate IsSet(v: Option<string>)
  {
    v.Some? && v.value != ""
  }

  /** The outcome an add result leads to once the credentials are present. */
  function GateDecision(r: AddResult, accepted: bool): (o: SendOutcome)
    ensures o == Delivered || o == DeliveryFailed <==> r.isNewMessage && r.canSend
    ensures o == AlreadyQueued <==> !r.isNewMessage
  {
    if !r.isNewMessage then AlreadyQueued
    else if !r.canSend then RateLimited
    else if accepted then Delivered
    else DeliveryFailed
  }

  /**
   * `sendTelegramMessage`: checks the credentials, asks the queue, and posts
   * the text only when the queue admits it. `accepted` is Telegram's answer
   * to the POST; every failure is caught and only logged.
   */
  method SendTelegramMessage(queue: MessageQueue, outbox: Outbox, botToken: Option<string>,
                             chatId: Option<string>, message: string, now: int, accepted: bool)
    returns (outcome: SendOutcome)
    modifies queue, outbox
    ensures !IsSet(botToken) ==> outcome == MissingBotToken
    ensures IsSet(botToken) && !IsSet(chatId) ==> outcome == MissingChatId
    ensures outcome == MissingBotToken || outcome == MissingChatId ==> queue.State() == old(queue.State())
    ensures IsSet(botToken) && IsSet(chatId) ==>
              var step := AddStep(old(queue.State()), message, now);
              queue.State() == step.next && outcome == GateDecision(step.result, accepted)
    ensures outbox.posted == old(outbox.posted) + (if outcome == Delivered || outcome == DeliveryFailed then [message] else [])
  {
    if !IsSet(botToken) {
      return MissingBotToken;
    }
    if !IsSet(chatId) {
      return MissingChatId;
    }
    var r := queue.Add(message, now);
    if !r.isNewMessage {
      return AlreadyQueued;
    }
    if !r.canSend {
      return RateLimited;
    }
    var ok := outbox.Post(message, accepted);
    outcome := if ok then Delivered else DeliveryFailed;
  }

  // ---------------------------------------------------------------------------
  // Properties of single calls

  /** A sweep keeps exactly the unexpired records, with their timestamps. */
  lemma SweepRemovesExactlyExpired(messages: map<string, int>, now: int, expirationTime: int, k: string)
    requires k in messages
    ensures k in Sweep(messages, now, expirationTime) <==> now - messages[k] < expirationTime
  {
  }

  /** Sweeping twice at the same time is sweeping once. */
  lemma SweepIdempotent(messages: map<string, int>, now: int, expirationTime: int)
    ensures Sweep(Sweep(messages, now, expirationTime), now, expirationTime) == Sweep(messages, now, expirationTime)
  {
  }

  /** A sweep at a later time removes at least what an earlier one removed. */
  lemma LaterSweepSubsumesEarlier(messages: map<string, int>, t1: int, t2: int, expirationTime: int)
    requires t1 <= t2
    ensures Sweep(Sweep(messages, t1, expirationTime), t2, expirationTime) == Sweep(messages, t2, expirationTime)
  {
  }

  /** A text still recorded after the sweep is a duplicate: nothing is recorded and the rate slot is kept. */
  lemma DuplicateLeavesRateLimiter(s: QueueState, message: string, now: int)
    requires message in Swept(s, now).messages
    ensures AddStep(s, message, now) == AddOutcome(AddResult(false, false), Swept(s, now))
    ensures AddStep(s, message, now).next.lastSentTime == s.lastSentTime
  {
  }

  /** A new text is admitted exactly when the rate limiter allows it; only then is it recorded. */
  lemma NewMessageAdmission(s: QueueState, message: string, now: int)
    requires message !in Swept(s, now).messages
    ensures var o := AddStep(s, message, now);
            && o.result.isNewMessage
            && (o.result.canSend <==> now - s.lastSentTime >= s.rateLimitMs)
            && (o.result.canSend ==> o.next.messages == Swept(s, now).messages[message := now] && o.next.lastSentTime == now)
            && (!o.result.canSend ==> o.next == Swept(s, now))
  {
  }

  /** A rate-limited text is not recorded, so `has` reports it absent at once. */
  lemma RateLimitedNotRecorded(s: QueueState, message: string, now: int)
    requires AddStep(s, message, now).result == AddResult(false, true)
    ensures message !in Swept(AddStep(s, message, now).next, now).messages
    ensures AddStep(s, message, now).next.lastSentTime == s.lastSentTime
  {
  }

  /** A rate-limited text is not blocked as a duplicate: it is admitted once the limiter allows. */
  lemma RateLimitedRetryAdmitted(s: QueueState, message: string, now: int, later: int)
    requires AddStep(s, message, now).result == AddResult(false, true)
    requires later - s.lastSentTime >= s.rateLimitMs
    ensures AddStep(AddStep(s, message, now).next, message, later).result == AddResult(true, true)
  {
  }

  /** An admitted text is stored with exactly the time that now governs the rate limiter. */
  lemma AdmittedTimestampIsLastSent(s: QueueState, message: string, now: int)
    requires AddStep(s, message, now).result.canSend
    ensures var n := AddStep(s, message, now).next;
            message in n.messages && n.messages[message] == n.lastSentTime == now
  {
  }

  /** An expired text is a fresh candidate again. */
  lemma ExpiredTextReadmitted(s: QueueState, message: string, now: int)
    requires message in s.messages && Expired(now, s.messages[message], s.expirationTime)
    requires RateAllows(s.lastSentTime, s.rateLimitMs, now)
    ensures AddStep(s, message, now).result == AddResult(true, true)
  {
  }

  /** `clear` is idempotent and brings back the state of a fresh queue with the same settings. */
  lemma ClearIsReset(s: QueueState)
    ensures Cleared(Cleared(s)) == Cleared(s)
    ensures Cleared(s) == InitialState(s.expirationTime, s.rateLimitMs)
  {
  }

  /** A fresh queue with the default settings refuses every text before 5000 ms on the clock. */
  lemma FreshQueueRateLimitsEarlyTexts(message: string, now: int)
    requires now < DefaultRateLimitMs
    ensures AddStep(InitialState(DefaultExpirationMs, DefaultRateLimitMs), message, now).result == AddResult(false, true)
  {
  }

  // ---------------------------------------------------------------------------
  // Properties of call sequences

  /** A call on the queue, as its users make them. */
  datatype Call = Add(message: string, now: int) | Has(message: string, now: int) | Clear

  function Apply(s: QueueState, c: Call): QueueState
  {
    match c
    case Add(message, now) => AddStep(s, message, now).next
    case Has(_, now) => Swept(s, now)
    case Clear => Cleared(s)
  }

  /** The state after a sequence of calls. */
  function Run(s: QueueState, calls: seq<Call>): QueueState
    decreases |calls|
  {
    if calls == [] then s else Run(Apply(s, calls[0]), calls[1..])
  }

  /** The clock readings of the admitting `add`s of a sequence of calls, in order. */
  function Admissions(s: QueueState, calls: seq<Call>): seq<int>
    decreases |calls|
  {
    if calls == [] then []
    else
      var c := calls[0];
      var here := if c.Add? && AddStep(s, c.message, c.now).result.canSend then [c.now] else [];
      here + Admissions(Apply(s, c), calls[1..])
  }

  predicate NoClear(calls: seq<Call>)
  {
    forall i :: 0 <= i < |calls| ==> !calls[i].Clear?
  }

  /**
   * The readings in `a` are spaced by at least `gap`: the first one at least
   * `gap` after `from`, each next one at least `gap` after the one before.
   */
  ghost predicate SpacedAfter(a: seq<int>, from: int, gap: int)
  {
    && (|a| > 0 ==> a[0] - from >= gap)
    && (forall i :: 0 <= i < |a| - 1 ==> a[i + 1] - a[i] >= gap)
  }

  lemma SpacedAfterCons(x: int, rest: seq<int>, from: int, gap: int)
    requires x - from >= gap && SpacedAfter(rest, x, gap)
    ensures SpacedAfter([x] + rest, from, gap)
  {
    var a := [x] + rest;
    forall i | 0 <= i < |a| - 1 ensures a[i + 1] - a[i] >= gap {
      if i > 0 {
        assert a[i] == rest[i - 1] && a[i + 1] == rest[i];
      }
    }
  }

  lemma NoClearTail(calls: seq<Call>)
    requires calls != [] && NoClear(calls)
    ensures !calls[0].Clear? && NoClear(calls[1..])
  {
    forall i | 0 <= i < |calls[1..]| ensures !calls[1..][i].Clear? {
      assert calls[1..][i] == calls[i + 1];
    }
  }

  /**
   * Without `clear`, admissions are spaced by at least the rate limit: the
   * first one at least `rateLimitMs` after `lastSentTime`, each next one at
   * least `rateLimitMs` after the one before, and `lastSentTime` ends at the
   * last admission.
   */
  lemma {:induction false} AdmissionsSpaced(s: QueueState, calls: seq<Call>)
    requires NoClear(calls)
    ensures SpacedAfter(Admissions(s, calls), s.lastSentTime, s.rateLimitMs)
    ensures var a := Admissions(s, calls);
            Run(s, calls).lastSentTime == (if |a| > 0 then a[|a| - 1] else s.lastSentTime)
    ensures Run(s, calls).rateLimitMs == s.rateLimitMs
    decreases |calls|
  {
    if calls != [] {
      var c := calls[0];
      var s' := Apply(s, c);
      NoClearTail(calls);
      AdmissionsSpaced(s', calls[1..]);
      var rest := Admissions(s', calls[1..]);
      assert s'.rateLimitMs == s.rateLimitMs;
      if c.Add? && AddStep(s, c.message, c.now).result.canSend {
        assert Admissions(s, calls) == [c.now] + rest;
        assert s'.lastSentTime == c.now;
        SpacedAfterCons(c.now, rest, s.lastSentTime, s.rateLimitMs);
      } else {
        assert Admissions(s, calls) == rest;
        assert s'.lastSentTime == s.lastSentTime;
      }
    }
  }

  /** Readings spaced by `gap` one after the other lie `(j - i) * gap` apart for any `i <= j`. */
  lemma {:induction false} SpacedAfterSpreadOut(a: seq<int>, from: int, gap: int, i: int, j: int)
    requires SpacedAfter(a, from, gap)
    requires 0 <= i <= j < |a|
    ensures a[j] - a[i] >= (j - i) * gap
    decreases j - i
  {
    if i < j {
      SpacedAfterSpreadOut(a, from, gap, i, j - 1);
      assert a[j] - a[j - 1] >= gap;
      assert (j - i) * gap == (j - 1 - i) * gap + gap;
    }
  }

  /** Consequence: without `clear`, any two admissions `i <= j` lie at least `(j - i) * rateLimitMs` apart. */
  lemma AdmissionsSpreadOut(s: QueueState, calls: seq<Call>, i: int, j: int)
    requires NoClear(calls)
    requires 0 <= i <= j < |Admissions(s, calls)|
    ensures var a := Admissions(s, calls);
            a[j] - a[i] >= (j - i) * s.rateLimitMs
  {
    AdmissionsSpaced(s, calls);
    SpacedAfterSpreadOut(Admissions(s, calls), s.lastSentTime, s.rateLimitMs, i, j);
  }

  /**
   * A recorded text stays recorded, with the same timestamp, through any
   * calls without `clear` whose clock readings lie within its expiration
   * window.
   */
  lemma {:induction false} RecordSurvives(s: QueueState, calls: seq<Call>, message: string, t1: int)
    requires message in s.messages && s.messages[message] == t1
    requires forall i :: 0 <= i < |calls| ==> !calls[i].Clear? && calls[i].now - t1 < s.expirationTime
    ensures message in Run(s, calls).messages && Run(s, calls).messages[message] == t1
    ensures Run(s, calls).expirationTime == s.expirationTime
    decreases |calls|
  {
    if calls != [] {
      var s' := Apply(s, calls[0]);
      assert message in s'.messages && s'.messages[message] == t1;
      forall i | 0 <= i < |calls[1..]|
        ensures !calls[1..][i].Clear? && calls[1..][i].now - t1 < s'.expirationTime
      {
        assert calls[1..][i] == calls[i + 1];
      }
      RecordSurvives(s', calls[1..], message, t1);
    }
  }

  /**
   * De-duplication: once a text is admitted at `t1`, offering it again at
   * any `t2` within the expiration window is refused as a duplicate, whatever
   * other calls (short of `clear`, and within the window) happened between.
   */
  lemma DuplicateSuppressedWithinWindow(s: QueueState, message: string, t1: int, calls: seq<Call>, t2: int)
    requires AddStep(s, message, t1).result.canSend
    requires forall i :: 0 <= i < |calls| ==> !calls[i].Clear? && calls[i].now - t1 < s.expirationTime
    requires t2 - t1 < s.expirationTime
    ensures AddStep(Run(AddStep(s, message, t1).next, calls), message, t2).result == AddResult(false, false)
  {
    RecordSurvives(AddStep(s, message, t1).next, calls, message, t1);
  }

  /** Every recorded text was admitted no later than the rate limiter's last send. */
  ghost predicate RecordsNotAfterLastSent(s: QueueState)
  {
    forall k :: k in s.messages ==> s.messages[k] <= s.lastSentTime
  }

  /** Any two recorded texts were admitted at least the rate limit apart. */
  ghost predicate RecordsSpaced(s: QueueState)
  {
    forall k1, k2 :: k1 in s.messages && k2 in s.messages && k1 != k2 ==>
      s.messages[k1] - s.messages[k2] >= s.rateLimitMs || s.messages[k2] - s.messages[k1] >= s.rateLimitMs
  }

  ghost predicate Spaced(s: QueueState)
  {
    RecordsNotAfterLastSent(s) && RecordsSpaced(s)
  }

  lemma InitialStateSpaced(expirationTimeMs: int, rateLimitMs: int)
    ensures Spaced(InitialState(expirationTimeMs, rateLimitMs))
  {
  }

  /** With a non-negative rate limit, every call keeps the records spaced. */
  lemma ApplyKeepsSpaced(s: QueueState, c: Call)
    requires s.rateLimitMs >= 0 && Spaced(s)
    ensures Spaced(Apply(s, c)) && Apply(s, c).rateLimitMs == s.rateLimitMs
  {
    if c.Add? {
      var t := Swept(s, c.now);
      var o := AddStep(s, c.message, c.now);
      if o.result.canSend {
        var n := o.next;
        forall k | k in n.messages ensures n.messages[k] <= n.lastSentTime {
          if k != c.message {
            assert n.messages[k] == s.messages[k];
          }
        }
        forall k1, k2 | k1 in n.messages && k2 in n.messages && k1 != k2
          ensures n.messages[k1] - n.messages[k2] >= n.rateLimitMs || n.messages[k2] - n.messages[k1] >= n.rateLimitMs
        {
          if k1 == c.message {
            assert n.messages[k2] == s.messages[k2] <= s.lastSentTime;
          } else if k2 == c.message {
            assert n.messages[k1] == s.messages[k1] <= s.lastSentTime;
          } else {
            assert n.messages[k1] == s.messages[k1] && n.messages[k2] == s.messages[k2];
          }
        }
      }
    }
  }

  /** The spacing invariant holds after any sequence of calls. */
  lemma {:induction false} RunKeepsSpaced(s: QueueState, calls: seq<Call>)
    requires s.rateLimitMs >= 0 && Spaced(s)
    ensures Spaced(Run(s, calls))
    decreases |calls|
  {
    if calls != [] {
      ApplyKeepsSpaced(s, calls[0]);
      RunKeepsSpaced(Apply(s, calls[0]), calls[1..]);
    }
  }

  /**
   * The default-settings scenario, on the clock the source starts from
   * (`lastSentTime = 0`): "A" at 0 is rate limited, "A" at 5000 is admitted,
   * "A" at 6000 is a duplicate, "B" at 6000 is rate limited, "B" at 10000 is
   * admitted, and "A" at 1805000 is admitted again because its record expired.
   */
  lemma DefaultScenario()
    ensures var s0 := InitialState(DefaultExpirationMs, DefaultRateLimitMs);
            var o1 := AddStep(s0, "A", 0);
            var o2 := AddStep(o1.next, "A", 5000);
            var o3 := AddStep(o2.next, "A", 6000);
            var o4 := AddStep(o3.next, "B", 6000);
            var o5 := AddStep(o4.next, "B", 10000);
            var o6 := AddStep(o5.next, "A", 1805000);
            && o1.result == AddResult(false, true)
            && o2.result == AddResult(true, true)
            && o3.result == AddResult(false, false)
            && o4.result == AddResult(false, true)
            && o5.result == AddResult(true, true)
            && o6.result == AddResult(true, true)
  {
    var s0 := InitialState(DefaultExpirationMs, DefaultRateLimitMs);
    var o1 := AddStep(s0, "A", 0);
    assert o1.next.messages == map[];
    var o2 := AddStep(o1.next, "A", 5000);
    assert o2.next.messages == map["A" := 5000];
    var o3 := AddStep(o2.next, "A", 6000);
    assert o3.next.messages == map["A" := 5000];
    var o4 := AddStep(o3.next, "B", 6000);
    assert o4.next.messages == map["A" := 5000];
    var o5 := AddStep(o4.next, "B", 10000);
    assert o5.next.messages == map["A" := 5000, "B" := 10000];
    assert "A" !in Swept(o5.next, 1805000).messages;
  }
}
