/** One turn of the conversation runner, and the auto-compact breaker
    (internal/conversation/run.go, internal/compact/runner.go). */
module Turn {
  import opened Text
  import opened Conversation
  import opened Compaction

  // ---------- The breaker ----------

  const DEFAULT_MAX_CONSECUTIVE_FAILURES: nat := 3

  /** FailureLimit. */
  function FailureLimit(configured: int): (limit: nat)
    ensures limit >= 1
  {
    if configured > 0 then configured else DEFAULT_MAX_CONSECUTIVE_FAILURES
  }

  /** What a turn would meet: `NotWanted` when compaction is disabled, the history is short or the usage
      below the threshold; `HookStopped` when a hook blocks it or fails. */
  datatype Attempt = NotWanted | HookStopped | ClientFails | Succeeds(options: PlanOptions)

  /** ShouldRun. */
  predicate ShouldRun(failures: nat, limit: nat, force: bool, attempt: Attempt) {
    attempt != NotWanted && (force || failures < limit)
  }

  /** The client is called. */
  predicate Attempted(failures: nat, limit: nat, force: bool, attempt: Attempt) {
    ShouldRun(failures, limit, force, attempt) && attempt != HookStopped
  }

  function FailuresAfter(failures: nat, limit: nat, force: bool, attempt: Attempt): nat {
    if !Attempted(failures, limit, force, attempt) then failures
    else if attempt.Succeeds? then 0 else failures + 1
  }

  /** The failure counter that all turns share. */
  class AutoCompact {
    const limit: nat
    const force: bool
    var failures: nat

    constructor (maxConsecutiveFailures: int, force: bool)
      ensures limit == FailureLimit(maxConsecutiveFailures) && this.force == force && failures == 0
    {
      limit, this.force, failures := FailureLimit(maxConsecutiveFailures), force, 0;
    }

    method MaybeAutoCompact(lower: string -> string, history: seq<Message>, attempt: Attempt)
      returns (after: seq<Message>, plan: Option<Plan>)
      modifies this
      ensures failures == FailuresAfter(old(failures), limit, force, attempt)
      ensures plan.Some? <==> Attempted(old(failures), limit, force, attempt) && attempt.Succeeds?
      ensures after == if plan.Some? then Output(lower, history, attempt.options) else history
      ensures plan.Some? ==> plan.value.boundary == Boundary(lower, history, attempt.options)
                             && plan.value.summary == Summary(attempt.options)
    {
      if attempt == NotWanted || (!force && failures >= limit) || attempt == HookStopped {
        return history, None;
      }
      if attempt == ClientFails {
        failures := failures + 1;
        return history, None;
      }
      failures := 0;
      var built := BuildPlan(lower, history, attempt.options);
      return built.output, Some(built);
    }
  }

  datatype Tally = Tally(counter: nat, failures: nat, successes: nat)

  function Count(t: Tally, limit: nat, force: bool, attempts: seq<Attempt>): Tally
    decreases |attempts|
  {
    if attempts == [] then t
    else
      var a := attempts[0];
      var tried := Attempted(t.counter, limit, force, a);
      Count(Tally(FailuresAfter(t.counter, limit, force, a),
                  t.failures + (if tried && !a.Succeeds? then 1 else 0),
                  t.successes + (if tried && a.Succeeds? then 1 else 0)), limit, force, attempts[1..])
  }

  /** Without force the counter never passes the limit, and every success pays for at most limit - 1
      failures. */
  lemma {:induction false} BreakerBounds(t: Tally, limit: nat, attempts: seq<Attempt>)
    requires limit >= 1 && t.counter <= limit && t.failures <= (limit - 1) * t.successes + t.counter
    ensures var r := Count(t, limit, false, attempts);
      r.counter <= limit && r.failures <= (limit - 1) * r.successes + r.counter
    decreases |attempts|
  {
    if attempts != [] {
      var a := attempts[0];
      var tried := Attempted(t.counter, limit, false, a);
      var next := Tally(FailuresAfter(t.counter, limit, false, a),
                        t.failures + (if tried && !a.Succeeds? then 1 else 0),
                        t.successes + (if tried && a.Succeeds? then 1 else 0));
      assert (limit - 1) * (t.successes + 1) == (limit - 1) * t.successes + (limit - 1);
      BreakerBounds(next, limit, attempts[1..]);
    }
  }

  /** At the limit the breaker latches: nothing is attempted again and nothing changes. */
  lemma {:induction false} BreakerLatches(t: Tally, limit: nat, attempts: seq<Attempt>)
    requires t.counter >= limit
    ensures Count(t, limit, false, attempts) == t
    decreases |attempts|
  {
    if attempts != [] {
      BreakerLatches(t, limit, attempts[1..]);
    }
  }

  /** Over every run of turns from a fresh counter. */
  lemma BreakerHolds(limit: nat, attempts: seq<Attempt>, later: seq<Attempt>)
    requires limit >= 1
    ensures var r := Count(Tally(0, 0, 0), limit, false, attempts);
      && r.counter <= limit && r.failures <= (limit - 1) * r.successes + limit
      && (r.counter == limit ==> Count(r, limit, false, later) == r)
  {
    BreakerBounds(Tally(0, 0, 0), limit, attempts);
    var r := Count(Tally(0, 0, 0), limit, false, attempts);
    if r.counter == limit {
      BreakerLatches(r, limit, later);
    }
  }

  /** With force the counter passes any limit. */
  lemma {:induction false} ForceIgnoresLimit(t: Tally, limit: nat, attempts: seq<Attempt>)
    requires forall a | a in attempts :: a == ClientFails
    ensures Count(t, limit, true, attempts).counter == t.counter + |attempts|
    decreases |attempts|
  {
    if attempts != [] {
      assert attempts[0] in attempts;
      assert forall a | a in attempts[1..] :: a in attempts;
      ForceIgnoresLimit(Tally(t.counter + 1, t.failures + 1, t.successes), limit, attempts[1..]);
    }
  }

  lemma {:induction false} CountAppend(t: Tally, limit: nat, force: bool, a: seq<Attempt>, b: seq<Attempt>)
    ensures Count(t, limit, force, a + b) == Count(Count(t, limit, force, a), limit, force, b)
    decreases |a|
  {
    if a == [] {
      assert a + b == b;
    } else {
      assert (a + b)[0] == a[0] && (a + b)[1..] == a[1..] + b;
      assert a[..1][0] == a[0] && a[..1][1..] == [];
      CountAppend(Count(t, limit, force, a[..1]), limit, force, a[1..], b);
      assert Count(t, limit, force, a) == Count(Count(t, limit, force, a[..1]), limit, force, a[1..]);
    }
  }

  /** An attempt that is not wanted, or that a hook stops, leaves no trace in any run. */
  lemma IdleAttemptsDoNotCount(t: Tally, limit: nat, force: bool, a: seq<Attempt>, idle: Attempt, b: seq<Attempt>)
    requires idle == NotWanted || idle == HookStopped
    ensures Count(t, limit, force, a + [idle] + b) == Count(t, limit, force, a + b)
  {
    CountAppend(t, limit, force, a + [idle], b);
    CountAppend(t, limit, force, a, [idle]);
    CountAppend(t, limit, force, a, b);
    assert [idle][1..] == [];
  }

  /** Failures in a row are counted up to the limit, which is three unless another is configured. */
  lemma {:induction false} FailuresCount(t: Tally, configured: int, attempts: seq<Attempt>)
    requires (forall a | a in attempts :: a == ClientFails) && t.counter <= FailureLimit(configured)
    ensures var limit := if configured > 0 then configured else 3;
      var made := if t.counter + |attempts| <= limit then |attempts| else limit - t.counter;
      Count(t, FailureLimit(configured), false, attempts) == Tally(t.counter + made, t.failures + made, t.successes)
    decreases |attempts|
  {
    if attempts != [] {
      assert attempts[0] in attempts && forall a | a in attempts[1..] :: a in attempts;
      if t.counter < FailureLimit(configured) {
        FailuresCount(Tally(t.counter + 1, t.failures + 1, t.successes), configured, attempts[1..]);
      } else {
        FailuresCount(t, configured, attempts[1..]);
      }
    }
  }

  /** A success below the limit starts the count again. */
  lemma SuccessResets(t: Tally, configured: int, before: seq<Attempt>, options: PlanOptions, fails: seq<Attempt>)
    requires Count(t, FailureLimit(configured), false, before).counter < FailureLimit(configured)
    requires (forall a | a in fails :: a == ClientFails) && |fails| <= FailureLimit(configured)
    ensures Count(t, FailureLimit(configured), false, before + [Succeeds(options)] + fails).counter == |fails|
  {
    var limit, success := FailureLimit(configured), Succeeds(options);
    CountAppend(t, limit, false, before + [success], fails);
    CountAppend(t, limit, false, before, [success]);
    assert [success][1..] == [];
    var r := Count(t, limit, false, before + [success]);
    assert r.counter == 0;
    FailuresCount(r, configured, fails);
  }

  // ---------- Appending ----------

  /** appendMessage; the ids stand in for blank ones. */
  function Appended(history: seq<Message>, m: Message, id: Id, lastId: Id): (r: (seq<Message>, Message))
    ensures |r.0| == |history| + 1 && r.0[|history|] == r.1
  {
    var named := if m.uuid == "" then m.(uuid := id) else m;
    if history == [] then ([named], named)
    else
      var last := history[|history| - 1];
      var last' := if last.uuid == "" then last.(uuid := lastId) else last;
      var linked := named.(parent := Some(last'.uuid));
      (history[..|history| - 1] + [last', linked], linked)
  }

  /** Appending links the new message to the last and leaves every other link alone. */
  lemma AppendKeepsChain(history: seq<Message>, m: Message, id: Id, lastId: Id)
    ensures Chain(Appended(history, m, id, lastId).0) <==> Chain(history)
  {
    var after, n := Appended(history, m, id, lastId).0, |history|;
    assert forall i | 0 <= i < n - 1 :: after[i] == history[i];
    assert n > 0 ==> after[n - 1].parent == history[n - 1].parent && after[n].parent == Some(after[n - 1].uuid);
    if Chain(after) {
      forall i | 0 < i < n
        ensures history[i].parent == Some(history[i - 1].uuid)
      {
        assert after[i].parent == Some(after[i - 1].uuid);
      }
    }
    if Chain(history) {
      forall i | 0 < i < |after|
        ensures after[i].parent == Some(after[i - 1].uuid)
      {
        assert i < n ==> history[i].parent == Some(history[i - 1].uuid);
      }
    }
  }

  // ---------- The transcript ----------

  /** The session file: `room` more lines can be written before writing fails. Without a session path
      nothing is written. */
  class Transcript {
    const enabled: bool
    var lines: seq<Message>
    var room: nat

    constructor (enabled: bool, room: nat)
      ensures this.enabled == enabled && lines == [] && this.room == room
    {
      this.enabled, lines, this.room := enabled, [], room;
    }

    method Append(m: Message) returns (ok: bool)
      modifies this
      ensures ok == (!enabled || old(room) > 0)
      ensures lines == old(lines) + if enabled && ok then [m] else []
    {
      ok := true;
      if enabled {
        if room == 0 {
          return false;
        }
        lines, room := lines + [m], room - 1;
      }
    }
  }

  // ---------- Sending ----------

  /** One API attempt: an assistant message and its tool results if it used tools, or an error. */
  datatype Reply =
    | Unprepared
    | Refused(fallbackEligible: bool)
    | Assistant(message: Message, usesTools: bool, toolMessages: seq<Message>)

  /** The attempts `send` makes: up to the first that is not refused in favour of a fallback. */
  function Attempts(replies: seq<Reply>): (n: nat)
    ensures n <= |replies|
  {
    if replies == [] || replies[0] == Unprepared then 0
    else if replies[0] == Refused(true) then 1 + Attempts(replies[1..])
    else 1
  }

  function Answer(replies: seq<Reply>): (answer: Option<Reply>)
    ensures answer.Some? ==> answer.value.Assistant?
  {
    if replies == [] then None
    else if replies[0].Assistant? then Some(replies[0])
    else if replies[0] == Refused(true) then Answer(replies[1..])
    else None
  }

  /** One model after the other; `replies[i]` is what the i-th would answer. */
  method Send(replies: seq<Reply>) returns (attempts: nat, answer: Option<Reply>)
    ensures attempts == Attempts(replies) && answer == Answer(replies)
  {
    attempts := 0;
    for i := 0 to |replies|
      invariant attempts == i && i + Attempts(replies[i..]) == Attempts(replies)
      invariant Answer(replies[i..]) == Answer(replies)
    {
      assert replies[i..][1..] == replies[i + 1..];
      if replies[i] == Unprepared {
        return attempts, None;
      }
      attempts := attempts + 1;
      if replies[i].Assistant? {
        return attempts, Some(replies[i]);
      }
      if i == |replies| - 1 || !replies[i].fallbackEligible {
        return attempts, None;
      }
    }
    return attempts, None;
  }

  /** Every model before the i-th refuses in favour of a fallback. */
  predicate Reached(replies: seq<Reply>, i: nat)
    requires i <= |replies|
  {
    forall j | 0 <= j < i :: replies[j] == Refused(true)
  }

  /** Attempt i is made exactly if its request can be prepared and every earlier model refused in favour of a
      fallback; the first assistant message so reached is the answer, and without one there is none. */
  lemma {:induction false} SendExactly(replies: seq<Reply>, i: nat)
    requires i < |replies|
    ensures i < Attempts(replies) <==> replies[i] != Unprepared && Reached(replies, i)
    ensures replies[i].Assistant? && Reached(replies, i) ==> Answer(replies) == Some(replies[i])
    ensures (forall k | 0 <= k < |replies| && replies[k].Assistant? :: !Reached(replies, k)) ==> Answer(replies) == None
  {
    if replies[0] == Refused(true) {
      var rest := replies[1..];
      assert forall j | 0 <= j < |rest| :: rest[j] == replies[j + 1];
      forall k | 0 <= k < |rest|
        ensures Reached(rest, k) <==> Reached(replies, k + 1)
      {
        assert forall j | 1 <= j < k + 1 :: replies[j] == rest[j - 1];
      }
      if rest != [] {
        SendExactly(rest, if i > 0 then i - 1 else 0);
      }
    }
  }

  // ---------- A turn ----------

  /** Everything a query turn meets from outside. `replies(r)` answers round r, one reply per model. The rest
      says what fails: setting up the tools, the session summary that a compaction writes to memory, listing the
      tools for the announcement, and the session memory or the stop hooks at the end. */
  datatype Outside = Outside(
    initial: seq<Message>,
    compaction: Attempt,
    delta: seq<Message> -> Option<Message>,
    replies: nat -> seq<Reply>,
    models: nat,
    maxToolRounds: nat,
    newID: nat -> Id,
    setupFails: bool, summaryFails: bool, deltaFails: bool, endFails: bool)
  {
    ghost predicate Valid() {
      models >= 1 && forall r :: |replies(r)| == models
    }
  }

  /** The history, the messages of the result, and how many ids were drawn. */
  datatype Log = Log(history: seq<Message>, messages: seq<Message>, issued: nat)

  function Recorded(l: Log, m: Message, newID: nat -> Id): Log {
    var (next, message) := Appended(l.history, m, newID(l.issued), newID(l.issued + 1));
    Log(next, l.messages + [message], l.issued + 2)
  }

  function RecordedAll(l: Log, ms: seq<Message>, newID: nat -> Id): Log
    decreases |ms|
  {
    if ms == [] then l else RecordedAll(Recorded(l, ms[0], newID), ms[1..], newID)
  }

  /** Before the first send: the initial messages, then the compacted history, then the announcement. */
  function Opening(lower: string -> string, history: seq<Message>, o: Outside, compacted: bool): Log {
    var l := RecordedAll(Log(history, [], 0), o.initial, o.newID);
    Announced(if compacted && o.compaction.Succeeds? then CompactedLog(lower, l, o.compaction.options) else l, o)
  }

  function CompactedLog(lower: string -> string, l: Log, options: PlanOptions): Log {
    Log(Output(lower, l.history, options), l.messages + [Boundary(lower, l.history, options), Summary(options)],
        l.issued)
  }

  function Announced(l: Log, o: Outside): Log {
    if o.delta(l.history).Some? then Recorded(l, o.delta(l.history).value, o.newID) else l
  }

  /** After r rounds, each of which recorded its answer and the results of the tools it used. */
  function AfterRounds(l: Log, o: Outside, r: nat): Log {
    if r == 0 then l
    else
      var previous := AfterRounds(l, o, r - 1);
      var answer := Answer(o.replies(r - 1));
      if answer.None? then previous
      else
        var asked := Recorded(previous, answer.value.message, o.newID);
        if answer.value.usesTools then RecordedAll(asked, answer.value.toolMessages, o.newID) else asked
  }

  // ---------- What a history says ----------

  /** `m` is `given`, its parent aside and with an id filled in if it had none. */
  predicate Same(given: Message, m: Message) {
    m == given.(uuid := m.uuid, parent := m.parent) && given.uuid in {"", m.uuid}
  }

  /** The history holds exactly the messages given, in order. */
  ghost predicate Carries(given: seq<Message>, history: seq<Message>) {
    |given| == |history| && forall i | 0 <= i < |given| :: Same(given[i], history[i])
  }

  lemma CarriesTrans(a: seq<Message>, b: seq<Message>, c: seq<Message>)
    requires Carries(a, b) && Carries(b, c)
    ensures Carries(a, c)
  {
  }

  lemma CarriesAppend(a: seq<Message>, b: seq<Message>, c: seq<Message>, d: seq<Message>)
    requires Carries(a, b) && Carries(c, d)
    ensures Carries(a + c, b + d)
  {
    hide Same;
  }

  lemma CarriesItself(a: seq<Message>)
    ensures Carries(a, a)
  {
  }

  /** Appending adds the message and changes no other, save for an id the last one lacked. */
  lemma AppendCarries(history: seq<Message>, m: Message, id: Id, lastId: Id)
    ensures var (after, linked) := Appended(history, m, id, lastId);
      Carries(history + [m], after) && Carries([m], [linked])
  {
  }

  lemma RecordCarries(l: Log, m: Message, newID: nat -> Id)
    ensures var r := Recorded(l, m, newID);
      && Carries(l.history + [m], r.history)
      && l.messages <= r.messages && Carries([m], r.messages[|l.messages|..])
  {
    AppendCarries(l.history, m, newID(l.issued), newID(l.issued + 1));
    hide Appended;
    var r := Recorded(l, m, newID);
    assert r.messages[|l.messages|..] == [Appended(l.history, m, newID(l.issued), newID(l.issued + 1)).1];
  }

  lemma {:induction false} RecordAllCarries(l: Log, ms: seq<Message>, newID: nat -> Id)
    ensures var r := RecordedAll(l, ms, newID);
      && Carries(l.history + ms, r.history)
      && l.messages <= r.messages && Carries(ms, r.messages[|l.messages|..])
    decreases |ms|
  {
    hide Recorded, Carries;
    if ms == [] {
      assert l.history + ms == l.history && l.messages[|l.messages|..] == ms;
      CarriesItself(l.history);
      CarriesItself(ms);
    } else {
      var next, r := Recorded(l, ms[0], newID), RecordedAll(l, ms, newID);
      RecordCarries(l, ms[0], newID);
      RecordAllCarries(next, ms[1..], newID);
      CarriesItself(ms[1..]);
      CarriesAppend(l.history + [ms[0]], next.history, ms[1..], ms[1..]);
      assert l.history + [ms[0]] + ms[1..] == l.history + ms;
      CarriesTrans(l.history + ms, next.history + ms[1..], r.history);
      CarriesAppend([ms[0]], next.messages[|l.messages|..], ms[1..], r.messages[|next.messages|..]);
      assert [ms[0]] + ms[1..] == ms;
      assert next.messages[|l.messages|..] + r.messages[|next.messages|..] == r.messages[|l.messages|..];
    }
  }

  /** What the first n rounds say: each answer, and behind it the results of the tools it used. */
  function Said(o: Outside, n: nat): seq<Message> {
    if n == 0 then []
    else
      var answer := Answer(o.replies(n - 1));
      Said(o, n - 1)
      + (if answer.None? then []
         else if answer.value.usesTools then [answer.value.message] + answer.value.toolMessages
         else [answer.value.message])
  }

  /** One more thing said. */
  lemma CarriesMore(before: seq<Message>, l: Log, said: seq<Message>, r: Log, given: seq<Message>)
    requires Carries(before, l.history) && Carries(l.history + said, r.history)
    requires Carries(given, l.messages) && l.messages <= r.messages && Carries(said, r.messages[|l.messages|..])
    ensures Carries(before + said, r.history) && Carries(given + said, r.messages)
  {
    hide Carries;
    CarriesItself(said);
    CarriesAppend(before, l.history, said, said);
    CarriesTrans(before + said, l.history + said, r.history);
    CarriesAppend(given, l.messages, said, r.messages[|l.messages|..]);
    assert l.messages + r.messages[|l.messages|..] == r.messages;
  }

  lemma {:induction false} RoundsCarry(l: Log, o: Outside, r: nat, before: seq<Message>, given: seq<Message>)
    requires Carries(before, l.history) && Carries(given, l.messages)
    ensures var after := AfterRounds(l, o, r);
      Carries(before + Said(o, r), after.history) && Carries(given + Said(o, r), after.messages)
  {
    hide Carries, Recorded, RecordedAll;
    if r == 0 {
      assert before + [] == before && given + [] == given;
    } else {
      RoundsCarry(l, o, r - 1, before, given);
      var previous, answer, said := AfterRounds(l, o, r - 1), Answer(o.replies(r - 1)), Said(o, r - 1);
      if answer.None? {
        assert said + [] == said;
      } else {
        var asked := Recorded(previous, answer.value.message, o.newID);
        RecordCarries(previous, answer.value.message, o.newID);
        CarriesMore(before + said, previous, [answer.value.message], asked, given + said);
        Regrouped(before, given, said, [answer.value.message]);
        if answer.value.usesTools {
          var said' := said + [answer.value.message];
          RecordAllCarries(asked, answer.value.toolMessages, o.newID);
          CarriesMore(before + said', asked, answer.value.toolMessages, AfterRounds(l, o, r), given + said');
          Regrouped(before, given, said', answer.value.toolMessages);
          assert Said(o, r) == said' + answer.value.toolMessages;
        }
      }
    }
  }

  lemma Regrouped(before: seq<Message>, given: seq<Message>, said: seq<Message>, more: seq<Message>)
    ensures before + said + more == before + (said + more) && given + said + more == given + (said + more)
  {
  }

  /** `sent` lists the history at each send; `attempts` counts API attempts. */
  class TurnState {
    const enabled: bool
    const transcript: Transcript
    var history: seq<Message>
    var messages: seq<Message>
    var sent: seq<seq<Message>>
    var attempts: nat
    var issued: nat
    ghost var before: seq<Message>
    ghost var linked: bool

    function Now(): Log
      reads this
    {
      Log(history, messages, issued)
    }

    /** The lines written are the messages of the result, and the history is linked or not as it was. */
    ghost predicate Valid()
      reads this, transcript
    {
      && enabled == transcript.enabled
      && (enabled ==> transcript.lines == before + messages)
      && (linked <==> Chain(history))
      && (forall i | 0 <= i < |sent| :: linked <==> Chain(sent[i]))
    }

    constructor (history: seq<Message>, transcript: Transcript)
      ensures Valid() && this.transcript == transcript && Now() == Log(history, [], 0) && sent == []
      ensures attempts == 0 && before == transcript.lines && (linked <==> Chain(history))
    {
      this.transcript, enabled := transcript, transcript.enabled;
      this.history, messages, sent, attempts, issued := history, [], [], 0, 0;
      before, linked := transcript.lines, Chain(history);
    }

    /** Appends to history, result and transcript; on a write error the line is missing. */
    method Record(m: Message, newID: nat -> Id) returns (ok: bool)
      requires Valid()
      modifies this`history, this`messages, this`issued, transcript
      ensures Now() == Recorded(old(Now()), m, newID)
      ensures ok ==> Valid()
      ensures !ok ==> enabled && transcript.lines == before + old(messages)
    {
      var (next, message) := Appended(history, m, newID(issued), newID(issued + 1));
      AppendKeepsChain(history, m, newID(issued), newID(issued + 1));
      history, messages, issued := next, messages + [message], issued + 2;
      ok := transcript.Append(message);
      assert enabled ==> before + messages == (before + old(messages)) + [message];
    }

    method RecordAll(ms: seq<Message>, newID: nat -> Id) returns (ok: bool)
      requires Valid()
      modifies this`history, this`messages, this`issued, transcript
      ensures ok ==> Valid() && Now() == RecordedAll(old(Now()), ms, newID)
    {
      for i := 0 to |ms|
        invariant Valid() && RecordedAll(Now(), ms[i..], newID) == RecordedAll(old(Now()), ms, newID)
      {
        hide Recorded;
        assert ms[i..][1..] == ms[i + 1..];
        ok := Record(ms[i], newID);
        if !ok {
          return false;
        }
      }
      ok := true;
    }
  }

  datatype Result = Result(ok: bool, messages: seq<Message>, sent: seq<seq<Message>>, attempts: nat, compacted: bool)

  /** RunTurn for input that queries the model, from the initial messages on. */
  method RunTurn(lower: string -> string, history: seq<Message>, auto: AutoCompact, transcript: Transcript, o: Outside)
    returns (result: Result)
    requires o.Valid()
    modifies auto, transcript
    ensures result.sent != [] || result.compacted ==>
              auto.failures == FailuresAfter(old(auto.failures), auto.limit, auto.force, o.compaction)
              && (result.compacted <==>
                  Attempted(old(auto.failures), auto.limit, auto.force, o.compaction) && o.compaction.Succeeds?)
    // what is sent and returned, round by round
    ensures Follows(result, Opening(lower, history, o, result.compacted), o)
    ensures Tells(lower, history, o, result)
    // every history sent is a parent chain, unless the given one was not and was not compacted
    ensures forall i | 0 <= i < |result.sent| :: Chain(result.sent[i]) <==> Chain(history) || result.compacted
    ensures |result.sent| <= o.maxToolRounds
    ensures result.attempts <= Budget(|result.sent|, o.models)
    // on success the transcript lines are the messages of the result, in order
    ensures result.ok && transcript.enabled ==> transcript.lines == old(transcript.lines) + result.messages
    ensures result.ok ==> !o.setupFails && !o.deltaFails && !o.endFails && (result.compacted ==> !o.summaryFails)
  {
    hide Opening, AfterRounds, RecordedAll, Recorded, Announced, Chain, FailuresAfter, Attempted, Boundary, Summary;
    SilenceTells(lower, history, o);
    hide Tells;
    var state := new TurnState(history, transcript);
    var ok := state.RecordAll(o.initial, o.newID);
    if !ok {
      return Result(false, [], [], 0, false);
    }
    if o.setupFails {
      return Result(false, state.messages, [], 0, false);
    }
    ghost var l := state.Now();
    var after, plan := auto.MaybeAutoCompact(lower, state.history, o.compaction);
    if plan.Some? {
      OutputIsChain(lower, state.history, o.compaction.options);
      ok := Compacted(state, after, plan.value, o.summaryFails);
      if !ok {
        return Result(false, state.messages, [], 0, true);
      }
      assert state.Now() == CompactedLog(lower, l, o.compaction.options);
    }
    OpeningIs(lower, history, o, plan.Some?, state.Now());
    result := Converse(state, o, plan.Some?);
    TurnTells(lower, history, o, result);
  }

  lemma OpeningIs(lower: string -> string, history: seq<Message>, o: Outside, compacted: bool, l: Log)
    requires var recorded := RecordedAll(Log(history, [], 0), o.initial, o.newID);
      l == if compacted && o.compaction.Succeeds? then CompactedLog(lower, recorded, o.compaction.options) else recorded
    ensures Opening(lower, history, o, compacted) == Announced(l, o)
  {
  }

  /** The turn ended in round r: all rounds before it used tools, and its answer used none. */
  ghost predicate Finished(o: Outside, r: nat) {
    && r > 0
    && (forall i | 0 <= i < r :: Answer(o.replies(i)).Some?)
    && (forall i | 0 <= i < r :: Answer(o.replies(i)).value.usesTools <==> i < r - 1)
  }

  /** Takes over the compacted history and writes the boundary and the summary. */
  method Compacted(state: TurnState, after: seq<Message>, plan: Plan, summaryFails: bool) returns (ok: bool)
    requires state.Valid() && state.sent == [] && Chain(after)
    modifies state`history, state`messages, state`linked, state.transcript
    ensures state.Now() == Log(after, old(state.messages) + [plan.boundary, plan.summary], state.issued) && state.linked
    ensures ok ==> state.Valid() && !summaryFails
  {
    state.history := after;
    state.linked := true;
    state.messages := state.messages + [plan.boundary, plan.summary];
    assert state.before + state.messages == state.before + old(state.messages) + [plan.boundary] + [plan.summary];
    ok := state.transcript.Append(plan.boundary);
    if !ok {
      return false;
    }
    ok := state.transcript.Append(plan.summary);
    ok := ok && !summaryFails;
  }

  /** The API attempts that so many rounds allow. */
  function Budget(rounds: nat, models: nat): nat {
    rounds * models
  }

  lemma BudgetGrows(rounds: nat, models: nat)
    ensures Budget(rounds + 1, models) == Budget(rounds, models) + models
  {
    assert (rounds + 1) * models == rounds * models + models;
  }

  /** The rest of the turn: the announcement, then the rounds. */
  method Converse(state: TurnState, o: Outside, compacted: bool) returns (result: Result)
    requires o.Valid() && state.Valid() && state.sent == [] && state.attempts == 0
    modifies state`history, state`messages, state`issued, state`sent, state`attempts, state.transcript
    ensures result.compacted == compacted && |result.sent| <= o.maxToolRounds
    ensures Follows(result, old(Announced(state.Now(), o)), o)
    ensures forall i | 0 <= i < |result.sent| :: Chain(result.sent[i]) <==> state.linked
    ensures result.attempts <= Budget(|result.sent|, o.models)
    ensures result.ok ==> !o.deltaFails && !o.endFails
    ensures result.ok && state.enabled ==> state.transcript.lines == state.before + result.messages
  {
    if o.deltaFails {
      return Result(false, state.messages, [], 0, compacted);
    }
    var announcement := o.delta(state.history);
    if announcement.Some? {
      var ok := state.Record(announcement.value, o.newID);
      if !ok {
        return Result(false, state.messages, [], 0, compacted);
      }
    }
    hide Announced, Follows;
    result := Rounds(state, o, compacted);
  }

  /** What is sent and returned, round by round from `opening`. */
  ghost predicate Follows(result: Result, opening: Log, o: Outside) {
    && (forall i | 0 <= i < |result.sent| :: result.sent[i] == AfterRounds(opening, o, i).history)
    && (forall i | 0 <= i < |result.sent| - 1 :: Answer(o.replies(i)).Some? && Answer(o.replies(i)).value.usesTools)
    && (result.ok ==> Finished(o, |result.sent|) && result.messages == AfterRounds(opening, o, |result.sent|).messages)
  }

  /** `round` rounds have been sent, and all of them used tools. */
  ghost predicate SoFar(sent: seq<seq<Message>>, opening: Log, o: Outside, round: nat) {
    && |sent| == round
    && (forall i | 0 <= i < round :: sent[i] == AfterRounds(opening, o, i).history)
    && (forall i | 0 <= i < round :: Answer(o.replies(i)).Some? && Answer(o.replies(i)).value.usesTools)
  }

  lemma SoFarEnds(sent: seq<seq<Message>>, opening: Log, o: Outside, round: nat, messages: seq<Message>,
                  attempts: nat, compacted: bool)
    requires SoFar(sent, opening, o, round)
    ensures Follows(Result(false, messages, sent, attempts, compacted), opening, o)
  {
  }

  /** One more round, whether it ends the turn or not. */
  lemma SoFarSnoc(sent: seq<seq<Message>>, opening: Log, o: Outside, round: nat, messages: seq<Message>,
                  attempts: nat, compacted: bool)
    requires SoFar(sent, opening, o, round)
    ensures var sent' := sent + [AfterRounds(opening, o, round).history];
      var answer := Answer(o.replies(round));
      && Follows(Result(false, messages, sent', attempts, compacted), opening, o)
      && (answer.Some? && answer.value.usesTools ==> SoFar(sent', opening, o, round + 1))
      && (answer.Some? && !answer.value.usesTools && messages == AfterRounds(opening, o, round + 1).messages ==>
            Follows(Result(true, messages, sent', attempts, compacted), opening, o))
  {
    hide AfterRounds, Answer;
  }

  /** What a turn sends and returns, message by message, once `begun` is the history with the initial messages:
      that history or what compaction makes of it, the announcement, and what the rounds said before. */
  ghost predicate TellsFrom(lower: string -> string, begun: seq<Message>, o: Outside, result: Result) {
    var compacted := result.compacted && o.compaction.Succeeds?;
    var base := if compacted then Output(lower, begun, o.compaction.options) else begun;
    var note := if o.delta(base).Some? then [o.delta(base).value] else [];
    var plan := if compacted then [Boundary(lower, begun, o.compaction.options), Summary(o.compaction.options)] else [];
    && (forall r | 0 <= r < |result.sent| :: Carries(base + note + Said(o, r), result.sent[r]))
    && (result.ok ==> Carries(o.initial + plan + note + Said(o, |result.sent|), result.messages))
  }

  ghost predicate Tells(lower: string -> string, history: seq<Message>, o: Outside, result: Result) {
    exists begun :: Carries(history + o.initial, begun) && TellsFrom(lower, begun, o, result)
  }

  /** Every send says all that was said before, in order, and nothing else; so does the result of a success. */
  lemma TurnTells(lower: string -> string, history: seq<Message>, o: Outside, result: Result)
    requires Follows(result, Opening(lower, history, o, result.compacted), o)
    ensures Tells(lower, history, o, result)
  {
    var recorded := RecordedAll(Log(history, [], 0), o.initial, o.newID);
    RecordAllCarries(Log(history, [], 0), o.initial, o.newID);
    assert recorded.messages[0..] == recorded.messages;
    var compacted := result.compacted && o.compaction.Succeeds?;
    var l := if compacted then CompactedLog(lower, recorded, o.compaction.options) else recorded;
    var plan := if compacted then [Boundary(lower, recorded.history, o.compaction.options),
                                   Summary(o.compaction.options)] else [];
    CarriesItself(l.history);
    CarriesItself(plan);
    CarriesAppend(o.initial, recorded.messages, plan, plan);
    assert recorded.messages + plan == l.messages;
    AnnouncedCarries(l, o, l.history, o.initial + plan);
    var note := if o.delta(l.history).Some? then [o.delta(l.history).value] else [];
    hide Carries, Announced, RecordedAll, Output, Boundary, Summary, AfterRounds, Finished;
    forall r: nat
      ensures Carries(l.history + note + Said(o, r), AfterRounds(Announced(l, o), o, r).history)
      ensures Carries(o.initial + plan + note + Said(o, r), AfterRounds(Announced(l, o), o, r).messages)
    {
      RoundsCarry(Announced(l, o), o, r, l.history + note, o.initial + plan + note);
    }
    hide Said;
    assert TellsFrom(lower, recorded.history, o, result);
  }

  /** A turn that fails before the first send sends nothing. */
  lemma SilenceTells(lower: string -> string, history: seq<Message>, o: Outside)
    ensures forall result: Result | result.sent == [] && !result.ok :: Tells(lower, history, o, result)
  {
    RecordAllCarries(Log(history, [], 0), o.initial, o.newID);
    var begun := RecordedAll(Log(history, [], 0), o.initial, o.newID).history;
    hide Carries, Said;
    assert forall result: Result | result.sent == [] && !result.ok :: TellsFrom(lower, begun, o, result);
  }

  lemma AnnouncedCarries(l: Log, o: Outside, before: seq<Message>, given: seq<Message>)
    requires Carries(before, l.history) && Carries(given, l.messages)
    ensures var note := if o.delta(l.history).Some? then [o.delta(l.history).value] else [];
      Carries(before + note, Announced(l, o).history) && Carries(given + note, Announced(l, o).messages)
  {
    hide Carries, Recorded;
    if o.delta(l.history).Some? {
      RecordCarries(l, o.delta(l.history).value, o.newID);
      CarriesMore(before, l, [o.delta(l.history).value], Announced(l, o), given);
    } else {
      assert before + [] == before && given + [] == given;
    }
  }

  /** From one send to the next: the answer, then every tool message, are all that is new. */
  lemma NextSendCarries(lower: string -> string, history: seq<Message>, o: Outside, result: Result, r: nat)
    requires Follows(result, Opening(lower, history, o, result.compacted), o) && r + 1 < |result.sent|
    ensures Answer(o.replies(r)).Some?
    ensures var a := Answer(o.replies(r)).value;
      && |result.sent[r + 1]| == |result.sent[r]| + 1 + |a.toolMessages|
      && Carries([a.message] + a.toolMessages, result.sent[r + 1][|result.sent[r]|..])
  {
    var opening, a := Opening(lower, history, o, result.compacted), Answer(o.replies(r)).value;
    CarriesItself(AfterRounds(opening, o, r).history);
    hide Opening;
    AfterRoundCarries(opening, o, r);
    hide AfterRounds, Same;
    assert result.sent[r + 1][|result.sent[r]|..][0..] == result.sent[r + 1][|result.sent[r]|..];
  }

  lemma AfterRoundCarries(l: Log, o: Outside, r: nat)
    requires Answer(o.replies(r)).Some? && Answer(o.replies(r)).value.usesTools
    ensures var a := Answer(o.replies(r)).value;
      Carries(AfterRounds(l, o, r).history + ([a.message] + a.toolMessages), AfterRounds(l, o, r + 1).history)
  {
    var a, previous := Answer(o.replies(r)).value, AfterRounds(l, o, r);
    var asked := Recorded(previous, a.message, o.newID);
    RecordCarries(previous, a.message, o.newID);
    RecordAllCarries(asked, a.toolMessages, o.newID);
    CarriesItself(a.toolMessages);
    hide Carries, Recorded, RecordedAll;
    CarriesAppend(previous.history + [a.message], asked.history, a.toolMessages, a.toolMessages);
    assert previous.history + [a.message] + a.toolMessages == previous.history + ([a.message] + a.toolMessages);
    CarriesTrans(previous.history + ([a.message] + a.toolMessages), asked.history + a.toolMessages,
                 AfterRounds(l, o, r + 1).history);
  }

  method Rounds(state: TurnState, o: Outside, compacted: bool) returns (result: Result)
    requires o.Valid() && state.Valid() && state.sent == [] && state.attempts == 0
    modifies state`history, state`messages, state`issued, state`sent, state`attempts, state.transcript
    ensures result.compacted == compacted && |result.sent| <= o.maxToolRounds
    ensures Follows(result, old(state.Now()), o)
    ensures forall i | 0 <= i < |result.sent| :: Chain(result.sent[i]) <==> state.linked
    ensures result.attempts <= Budget(|result.sent|, o.models)
    ensures result.ok ==> !o.endFails
    ensures result.ok && state.enabled ==> state.transcript.lines == state.before + result.messages
  {
    ghost var opening := state.Now();
    var round := 0;
    assert SoFar(state.sent, opening, o, round);
    assert state.Now() == AfterRounds(opening, o, round);
    hide Follows, SoFar, Budget, AfterRounds, Attempts, Chain, Answer, Outside.Valid;
    while round < o.maxToolRounds
      invariant state.Valid() && |state.sent| == round <= o.maxToolRounds
      invariant state.attempts <= Budget(round, o.models)
      invariant state.Now() == AfterRounds(opening, o, round) && SoFar(state.sent, opening, o, round)
    {
      var done, ok := Round(state, o, round, opening, compacted);
      if !ok || done {
        return Result(ok, state.messages, state.sent, state.attempts, compacted);
      }
      round := round + 1;
    }
    SoFarEnds(state.sent, opening, o, round, state.messages, state.attempts, compacted);
    return Result(false, state.messages, state.sent, state.attempts, compacted);
  }

  /** One round: send, record the answer, run its tools. */
  method Round(state: TurnState, o: Outside, round: nat, ghost opening: Log, ghost compacted: bool)
    returns (done: bool, ok: bool)
    requires o.Valid() && state.Valid() && |state.sent| == round && state.attempts <= Budget(round, o.models)
    requires state.Now() == AfterRounds(opening, o, round) && SoFar(state.sent, opening, o, round)
    modifies state`history, state`messages, state`issued, state`sent, state`attempts, state.transcript
    ensures ok ==> state.Valid() && state.Now() == AfterRounds(opening, o, round + 1)
    ensures ok && !done ==> SoFar(state.sent, opening, o, round + 1)
    ensures ok && done ==> !o.endFails
    ensures !ok || done ==> Follows(Result(ok, state.messages, state.sent, state.attempts, compacted), opening, o)
    ensures |state.sent| == round + 1 && state.attempts <= Budget(round + 1, o.models)
    ensures forall i | 0 <= i < |state.sent| :: Chain(state.sent[i]) <==> state.linked
  {
    hide Chain, Follows, SoFar;
    ghost var sent := state.sent;
    state.sent := state.sent + [state.history];
    var attempts, answer := Send(o.replies(round));
    BudgetGrows(round, o.models);
    hide Budget;
    state.attempts := state.attempts + attempts;
    ok := RoundAnswer(state, o, round, opening, answer);
    SoFarSnoc(sent, opening, o, round, state.messages, state.attempts, compacted);
    done := answer.None? || !answer.value.usesTools;
    ok := ok && !(done && o.endFails);
  }

  method RoundAnswer(state: TurnState, o: Outside, round: nat, ghost opening: Log, answer: Option<Reply>)
    returns (ok: bool)
    requires state.Valid() && state.Now() == AfterRounds(opening, o, round) && answer == Answer(o.replies(round))
    modifies state`history, state`messages, state`issued, state.transcript
    ensures ok ==> state.Valid() && state.Now() == AfterRounds(opening, o, round + 1) && answer.Some?
  {
    hide Chain;
    if answer.None? {
      return false;
    }
    ok := state.Record(answer.value.message, o.newID);
    if ok && answer.value.usesTools {
      ok := state.RecordAll(answer.value.toolMessages, o.newID);
    }
  }
}
