/**
 * The watcher (src/aw_watcher_ask/core.py): the client and bucket names, the
 * answer record of one prompt, the choice between single- and multi-field
 * prompts, the time-zone repair of the deadline, the sleep before each
 * firing, and the loop that prompts and stores one event per firing.
 *
 * Everything the watcher talks to is abstract: the ActivityWatch server is
 * the class `Server`, which records buckets and inserted events; the cron
 * cursor is a function giving the k-th firing instant; the dialog is a
 * function giving the k-th reply; the wall clock is an integer number of
 * microseconds since the epoch (UTC) that moves only by sleeping, by
 * waiting for the user, and by storing and logging an event.
 */
module Core {
  import opened Wrappers
  import opened Utils
  import opened Models
  import opened Cli

  // ---------------------------------------------------------------------
  // Client and bucket

  const WatcherName: string := "aw-watcher-ask"

  /** The identity of an ActivityWatch client. */
  datatype Client = Client(clientName: string, clientHostname: string, testing: bool)

  /** `_client_setup`: a client named after the watcher, with a `test-` prefix in testing mode. */
  function ClientSetup(testing: bool, hostname: string): (c: Client)
    ensures c.clientHostname == hostname && c.testing == testing
    ensures |WatcherName| <= |c.clientName|
    ensures c.clientName[|c.clientName| - |WatcherName|..] == WatcherName
    ensures testing <==> c.clientName == "test-" + WatcherName
    ensures !testing <==> c.clientName == WatcherName
    ensures '_' !in c.clientName
  {
    ClientNamesHaveNoUnderscore();
    var clientName := if testing then "test-" + WatcherName else WatcherName;
    Client(clientName, hostname, testing)
  }

  lemma ClientNamesHaveNoUnderscore()
    ensures '_' !in WatcherName && '_' !in "test-" + WatcherName
  {
    var name, testName := WatcherName, "test-" + WatcherName;
    forall i | 0 <= i < |name| ensures name[i] != '_' {
    }
    forall i | 0 <= i < |testName| ensures testName[i] != '_' {
    }
  }

  /**
   * The bucket id `_bucket_setup` formats: the client name, then `_`, then
   * the host name, each readable back at its place.
   */
  function BucketId(c: Client): (b: string)
    ensures var n := |c.clientName|;
      && |b| == n + 1 + |c.clientHostname| && b[n] == '_'
      && b[..n] == c.clientName && b[n + 1..] == c.clientHostname
  {
    var b := c.clientName + "_" + c.clientHostname;
    assert b[..|c.clientName|] == c.clientName;
    assert b[|c.clientName| + 1..] == c.clientHostname;
    b
  }

  /**
   * The watcher's bucket id can be read back: its first `_` comes right after
   * the client name, and the host name follows it.
   */
  lemma BucketIdParts(testing: bool, hostname: string)
    ensures var c := ClientSetup(testing, hostname); var b, n := BucketId(c), |c.clientName|;
      && n < |b| && b[n] == '_' && '_' !in b[..n]
      && b[..n] == c.clientName && b[n + 1..] == hostname
  {
    var c := ClientSetup(testing, hostname);
    var b, n := BucketId(c), |c.clientName|;
    assert b[..n] == c.clientName;
  }

  /** A stored event: when it was captured, and the answer record. */
  datatype Event = Event(timestamp: int, data: map<string, Field>)

  /** A value in an answer record: the success flag or the captured text. */
  datatype Field = Success(ok: bool) | Content(text: string)

  /**
   * The ActivityWatch server as the watcher uses it: buckets, each with its
   * declared event type, and the events inserted so far, each with its bucket.
   */
  class Server {
    var buckets: map<string, string>
    var events: seq<(string, Event)>

    constructor ()
      ensures buckets == map[] && events == []
    {
      buckets := map[];
      events := [];
    }

    /** `create_bucket`: creating a bucket that already exists changes nothing. */
    method CreateBucket(bucketId: string, eventType: string)
      modifies this
      ensures buckets == if bucketId in old(buckets) then old(buckets) else old(buckets)[bucketId := eventType]
      ensures events == old(events)
    {
      if bucketId !in buckets {
        buckets := buckets[bucketId := eventType];
      }
    }

    /** `insert_event`: appends one event to a bucket. */
    method InsertEvent(bucketId: string, event: Event)
      modifies this
      ensures events == old(events) + [(bucketId, event)]
      ensures buckets == old(buckets)
    {
      events := events + [(bucketId, event)];
    }
  }

  /** `_bucket_setup`: makes sure the client's bucket exists, declared with the question id as its event type. */
  method BucketSetup(server: Server, client: Client, questionId: string) returns (bucketId: string)
    modifies server
    ensures bucketId == BucketId(client) && bucketId in server.buckets
    ensures server.buckets == if bucketId in old(server.buckets) then old(server.buckets)
                              else old(server.buckets)[bucketId := questionId]
    ensures server.events == old(server.events)
  {
    bucketId := client.clientName + "_" + client.clientHostname;
    server.CreateBucket(bucketId, questionId);
  }

  // ---------------------------------------------------------------------
  // Prompting

  /** What Zenity returns: whether the user answered in time, and the text entered. */
  datatype Reply = Reply(success: bool, content: string)

  /** The arguments of `zenity.show`: the dialog kind's value, the title, the timeout and the extra options. */
  datatype Request = Request(kind: string, title: string, timeout: int, options: map<string, ArgValue>)

  /** The outcome of one prompt: an answer record, or the error raised for multi-field dialogs. */
  datatype Answer = Record(fields: map<string, Field>) | NotImplementedError

  /** The request `_ask_one` sends: the extra options lose `ctx`, the rest is passed on as given. */
  function PromptRequest(kind: DialogType, title: string, timeout: int, kwargs: map<string, ArgValue>): (q: Request)
    ensures q.kind == Value(kind) && q.title == title && q.timeout == timeout
    ensures q.options.Keys == kwargs.Keys - {"ctx"}
    ensures forall k :: k in q.options ==> q.options[k] == kwargs[k]
  {
    var options := kwargs - {"ctx"};
    Request(Value(kind), title, timeout, options)
  }

  /**
   * The dictionary `_ask_one` returns: the success flag under `"success"` and
   * the text under the title. A title of `"success"` overwrites the flag.
   */
  function AnswerRecord(key: string, reply: Reply): (r: map<string, Field>)
    ensures "success" in r && key in r && r[key] == Content(reply.content)
    ensures key != "success" ==> r["success"] == Success(reply.success)
  {
    var record := map["success" := Success(reply.success)];
    record[key := Content(reply.content)]
  }

  /** The record has no other entries; with the title `"success"` it has a single one, the text. */
  lemma AnswerRecordKeys(key: string, reply: Reply)
    ensures AnswerRecord(key, reply).Keys == {"success", key}
    ensures key == "success" ==> AnswerRecord(key, reply) == map["success" := Content(reply.content)]
  {
  }

  /** `_ask_one`: the n-th dialog shown, turned into an answer record keyed by its title. */
  function AskOne(kind: DialogType, title: string, timeout: int, kwargs: map<string, ArgValue>,
                  show: (Request, nat) -> Reply, n: nat): (a: Answer)
    ensures a.Record?
    ensures var reply := show(PromptRequest(kind, title, timeout, kwargs), n);
      && "success" in a.fields && title in a.fields && a.fields[title] == Content(reply.content)
      && (title != "success" ==> a.fields["success"] == Success(reply.success))
  {
    Record(AnswerRecord(title, show(PromptRequest(kind, title, timeout, kwargs), n)))
  }

  /** `_ask_many`: multi-field dialogs are not implemented; it always raises. */
  function AskMany(kind: DialogType, timeout: int, kwargs: map<string, ArgValue>): (a: Answer)
    ensures a.NotImplementedError?
  {
    NotImplementedError
  }

  /**
   * The prompt `main` makes at a firing: multi-field kinds go to `_ask_many`,
   * the others to `_ask_one`. Exactly the kinds `forms`, `list` and
   * `file_selection` raise instead of producing a record, and a record
   * always holds the flag and the answer key.
   */
  function Ask(kind: DialogType, key: string, timeout: int, kwargs: map<string, ArgValue>,
               show: (Request, nat) -> Reply, n: nat): (a: Answer)
    ensures a.NotImplementedError? <==> kind in {Forms, List, FileSelection}
    ensures a.Record? ==> var reply := show(PromptRequest(kind, key, timeout, kwargs), n);
      && "success" in a.fields && key in a.fields && a.fields[key] == Content(reply.content)
      && (key != "success" ==> a.fields["success"] == Success(reply.success))
  {
    if IsMultiField(kind) then AskMany(kind, timeout, kwargs)
    else AskOne(kind, key, timeout, kwargs, show, n)
  }

  /**
   * The title and answer key `main` uses: the title when it is truthy,
   * otherwise the question id; an empty title falls back to the id.
   */
  function AnswerKey(title: Option<string>, questionId: string): (key: string)
    ensures title == None || title == Some("") ==> key == questionId
    ensures key != questionId ==> title == Some(key)
    ensures title.Some? && title.value != "" ==> key == title.value
  {
    if title.Some? && title.value != "" then title.value else questionId
  }

  // ---------------------------------------------------------------------
  // Deadline

  /** A fixed-offset time zone, as `astimezone()` attaches it; the offset is in microseconds east of UTC. */
  datatype Zone = Zone(name: string, offset: int)

  /** A `datetime`: a wall-clock reading in microseconds and, when aware, its zone. */
  datatype DateTime = DateTime(wall: int, tz: Option<Zone>)

  /** The UTC instant of an aware `datetime`. */
  function Instant(d: DateTime): int
    requires d.tz.Some?
  {
    d.wall - d.tz.value.offset
  }

  /**
   * `now < d` for the aware UTC clock reading `now`; Python raises a
   * `TypeError` (None here) when `d` is naive.
   */
  function ClockBefore(now: int, d: DateTime): (r: Option<bool>)
    ensures r.Some? <==> d.tz.Some?
    ensures r == Some(true) <==> d.tz.Some? && now + d.tz.value.offset < d.wall
  {
    if d.tz.None? then None else Some(now < Instant(d))
  }

  /** The repair of the deadline in `main`: a naive one gets the system zone, an aware one is kept. */
  function CoerceDeadline(until: DateTime, system: Zone): (d: DateTime)
    ensures d.tz.Some? && d.wall == until.wall
    ensures until.tz.Some? ==> d == until
    ensures until.tz.None? ==> d.tz == Some(system)
  {
    if until.tz.None? then until.(tz := Some(system)) else until
  }

  /** After the repair the loop's comparison against the clock never raises; before it, a naive deadline would. */
  lemma CoercedDeadlineComparable(now: int, until: DateTime, system: Zone)
    ensures ClockBefore(now, CoerceDeadline(until, system)).Some?
    ensures until.tz.None? ==> ClockBefore(now, until).None?
    ensures until.tz.None? ==> Instant(CoerceDeadline(until, system)) == until.wall - system.offset
  {
  }

  // ---------------------------------------------------------------------
  // Sleep before a firing

  // Clock readings and differences are in microseconds: 1_000_000 per
  // second, 86_400 seconds and 86_400_000_000 microseconds per day.

  /** A `timedelta` as Python stores it. */
  datatype TimeDelta = TimeDelta(days: int, seconds: int, microseconds: int)

  /** Python's normal form: seconds within a day, microseconds within a second. */
  predicate Normalized(d: TimeDelta) {
    0 <= d.seconds < 86_400 && 0 <= d.microseconds < 1_000_000
  }

  function TotalMicros(d: TimeDelta): int {
    d.days * 86_400_000_000 + d.seconds * 1_000_000 + d.microseconds
  }

  /** The `timedelta` of a difference of instants, normalised as Python does. */
  function FromMicros(us: int): (d: TimeDelta)
    ensures Normalized(d)
    ensures TotalMicros(d) == us
  {
    var days, rest := us / 86_400_000_000, us % 86_400_000_000;
    assert us == days * 86_400_000_000 + rest;
    var d := TimeDelta(days, rest / 1_000_000, rest % 1_000_000);
    assert rest == d.seconds * 1_000_000 + d.microseconds;
    d
  }

  /** The normal form is unique: any normalised `timedelta` with the same total is `FromMicros`'s. */
  lemma NormalFormUnique(d: TimeDelta)
    requires Normalized(d)
    ensures FromMicros(TotalMicros(d)) == d
  {
    var us := TotalMicros(d);
    var rest := d.seconds * 1_000_000 + d.microseconds;
    assert 0 <= rest < 86_400_000_000;
    assert us == d.days * 86_400_000_000 + rest;
    assert us / 86_400_000_000 == d.days && us % 86_400_000_000 == rest;
    assert rest / 1_000_000 == d.seconds && rest % 1_000_000 == d.microseconds;
  }

  /** `max(sleep_time.seconds, 0)` for a firing `diff` microseconds away. */
  function SleepSeconds(diff: int): (s: nat)
    ensures s < 86_400
  {
    var seconds := FromMicros(diff).seconds;
    if seconds > 0 then seconds else 0
  }

  /**
   * The clock after `time.sleep(max(sleep_time.seconds, 0))` from the
   * reading `now`, for a firing `sleepTime` microseconds away.
   */
  function Slept(now: int, sleepTime: int): (woke: int)
    ensures now <= woke < now + 86_400_000_000
  {
    now + SleepSeconds(sleepTime) * 1_000_000
  }

  /** The clamp to zero never changes anything: `.seconds` is never negative. */
  lemma SleepIsSecondsField(diff: int)
    ensures SleepSeconds(diff) == FromMicros(diff).seconds
  {
  }

  /** A firing less than a day ahead is slept for in whole seconds, rounded down. */
  lemma SleepWithinADay(diff: int)
    requires 0 <= diff < 86_400_000_000
    ensures SleepSeconds(diff) * 1_000_000 <= diff < (SleepSeconds(diff) + 1) * 1_000_000
  {
    NormalFormUnique(TimeDelta(0, diff / 1_000_000, diff % 1_000_000));
  }

  /** Whole days are dropped. */
  lemma SleepDropsDays(diff: int, days: int)
    ensures SleepSeconds(diff + days * 86_400_000_000) == SleepSeconds(diff)
  {
    var d := FromMicros(diff);
    NormalFormUnique(TimeDelta(d.days + days, d.seconds, d.microseconds));
  }

  /** A firing already past by up to one second makes the watcher sleep 86399 seconds. */
  lemma SleepAfterMissedFiring(diff: int)
    requires -1_000_000 <= diff < 0
    ensures SleepSeconds(diff) == 86_400 - 1
  {
    NormalFormUnique(TimeDelta(-1, 86_400 - 1, diff + 1_000_000));
  }

  /** For a firing less than a day ahead, the watcher wakes within the second before it. */
  lemma WakesJustBeforeFiring(now: int, firing: int)
    requires now <= firing < now + 86_400_000_000
    ensures Slept(now, firing - now) <= firing < Slept(now, firing - now) + 1_000_000
  {
    SleepWithinADay(firing - now);
  }

  /**
   * For a firing missed by less than a second, the watcher sleeps almost a
   * whole day and wakes long after the firing.
   */
  lemma WakesADayLate(now: int, firing: int)
    requires now - 1_000_000 <= firing < now
    ensures Slept(now, firing - now) == now + 86_399_000_000
  {
    SleepAfterMissedFiring(firing - now);
  }

  // ---------------------------------------------------------------------
  // The watcher loop

  type Positive = n: int | n > 0 witness 1

  /**
   * What `main` gets from outside: the transliteration used to repair ids,
   * the host name, the system time zone, the clock at start, the cron cursor
   * (`firing(k)` is the instant of the k-th firing it yields), the replies
   * of the dialogs (`show(q, k)` for the k-th prompt), how long the user
   * takes on each (`latency(k)` microseconds, never zero), and how long
   * storing the k-th event and logging it take before the next loop head
   * reads the clock (`store(k)` microseconds).
   */
  datatype Env = Env(
    translit: string -> string,
    hostname: string,
    zone: Zone,
    start: int,
    firing: nat -> int,
    show: (Request, nat) -> Reply,
    latency: nat -> Positive,
    store: nat -> nat)

  /** The fixed inputs of the loop once `main` has repaired the id and the deadline. */
  datatype Plan = Plan(
    deadline: int,
    kind: DialogType,
    key: string,
    timeout: int,
    kwargs: map<string, ArgValue>,
    env: Env)

  /** How `main` ends: the deadline passed, or `_ask_many` raised. */
  datatype Outcome = Finished | Raised

  /** The events a run of the loop stores, and how it ends. */
  datatype Trace = Trace(events: seq<Event>, outcome: Outcome)

  /**
   * The loop of `main` from a loop head with clock `now`, the cursor having
   * yielded `k` firings: test the deadline, sleep towards the next firing,
   * prompt, store one event stamped with the clock after the prompt, and
   * come back to the loop head once storing and logging it are done.
   */
  function Loop(p: Plan, now: int, k: nat): (r: Trace)
    ensures r.outcome == Raised <==> now < p.deadline && IsMultiField(p.kind)
    ensures r.outcome == Raised ==> r.events == []
    decreases p.deadline - now
  {
    if now >= p.deadline then Trace([], Finished)
    else
      var woke := Slept(now, p.env.firing(k) - now);
      var answer := Ask(p.kind, p.key, p.timeout, p.kwargs, p.env.show, k);
      if answer.NotImplementedError? then Trace([], Raised)
      else
        var stamp := woke + p.env.latency(k);
        var rest := Loop(p, stamp + p.env.store(k), k + 1);
        Trace([Event(stamp, answer.fields)] + rest.events, rest.outcome)
  }

  /**
   * The plan `main` builds from its arguments: the answer key is a valid id
   * unless a title is given, an aware deadline keeps its instant and a naive
   * one is read in the system zone; the rest is passed through.
   */
  function MainPlan(questionId: string, kind: DialogType, title: Option<string>, until: DateTime,
                    timeout: int, kwargs: map<string, ArgValue>, env: Env): (p: Plan)
    ensures title.Some? && title.value != "" ==> p.key == title.value
    ensures title.None? || title == Some("") ==> p.key == EffectiveId(env.translit, questionId)
    ensures title.None? || title == Some("") ==> IsValidId(p.key)
    ensures until.tz.Some? ==> p.deadline == until.wall - until.tz.value.offset
    ensures until.tz.None? ==> p.deadline == until.wall - env.zone.offset
    ensures p.kind == kind && p.timeout == timeout && p.kwargs == kwargs && p.env == env
  {
    var id := EffectiveId(env.translit, questionId);
    Plan(Instant(CoerceDeadline(until, env.zone)), kind, AnswerKey(title, id), timeout, kwargs, env)
  }

  /** The events of one bucket as the server lists them, oldest first. */
  function InBucket(bucketId: string, events: seq<Event>): seq<(string, Event)> {
    if |events| == 0 then [] else [(bucketId, events[0])] + InBucket(bucketId, events[1..])
  }

  /** Each stored event is listed once, in order, under the bucket. */
  lemma {:induction false} InBucketLists(bucketId: string, events: seq<Event>)
    ensures |InBucket(bucketId, events)| == |events|
    ensures forall i :: 0 <= i < |events| ==> InBucket(bucketId, events)[i] == (bucketId, events[i])
  {
    if |events| > 0 {
      InBucketLists(bucketId, events[1..]);
    }
  }

  /**
   * One turn of the loop that prompts: given the clock after the sleep and
   * after the answer, the event stored comes first and the later turns follow.
   */
  lemma LoopStep(p: Plan, now: int, k: nat, sleepTime: int, woke: int, stamp: int, next: int,
                 answer: Answer, event: Event)
    requires now < p.deadline
    requires !IsMultiField(p.kind)
    requires sleepTime == p.env.firing(k) - now
    requires woke == Slept(now, sleepTime)
    requires stamp == woke + p.env.latency(k)
    requires next == stamp + p.env.store(k)
    requires answer == AskOne(p.kind, p.key, p.timeout, p.kwargs, p.env.show, k)
    requires event == Event(stamp, answer.fields)
    ensures Loop(p, now, k) == Trace([event] + Loop(p, next, k + 1).events, Loop(p, next, k + 1).outcome)
  {
    assert Slept(now, sleepTime) == Slept(now, p.env.firing(k) - now);
  }

  /** A turn of a multi-field loop raises before storing anything. */
  lemma LoopRaises(p: Plan, now: int, k: nat)
    requires now < p.deadline
    requires IsMultiField(p.kind)
    ensures Loop(p, now, k) == Trace([], Raised)
  {
  }

  /** Inserting the next event moves it from the events still to come to the server's list. */
  lemma InBucketInsert(listed: seq<(string, Event)>, bucketId: string, event: Event, rest: seq<Event>)
    ensures listed + InBucket(bucketId, [event] + rest) == (listed + [(bucketId, event)]) + InBucket(bucketId, rest)
  {
    assert ([event] + rest)[1..] == rest;
  }

  /**
   * The loop of `main`: while the clock is before the deadline, sleep
   * towards the cursor's next firing, prompt, and insert the answer record
   * as an event stamped with the clock after the prompt.
   */
  method PromptUntil(server: Server, bucketId: string, deadline: int, kind: DialogType, key: string,
                     timeout: int, kwargs: map<string, ArgValue>, env: Env)
    returns (outcome: Outcome)
    modifies server
    ensures server.buckets == old(server.buckets)
    ensures var run := Loop(Plan(deadline, kind, key, timeout, kwargs, env), env.start, 0);
      && server.events == old(server.events) + InBucket(bucketId, run.events)
      && outcome == run.outcome
  {
    ghost var plan := Plan(deadline, kind, key, timeout, kwargs, env);
    ghost var total := Loop(plan, env.start, 0);
    ghost var listed := server.events + InBucket(bucketId, total.events);
    var executions: nat := 0;
    var now := env.start;
    outcome := Finished;
    while now < deadline
      invariant server.buckets == old(server.buckets)
      invariant listed == server.events + InBucket(bucketId, Loop(plan, now, executions).events)
      invariant total.outcome == Loop(plan, now, executions).outcome
      decreases deadline - now
    {
      ghost var head := now;
      var k := executions;
      var nextExecution := env.firing(executions);
      executions := executions + 1;
      var sleepTime := nextExecution - now;
      now := Slept(now, sleepTime);
      ghost var woke := now;
      var answer;
      if IsMultiField(kind) {
        answer := AskMany(kind, timeout, kwargs);
        LoopRaises(plan, head, k);
        outcome := Raised;
        return;
      } else {
        answer := AskOne(kind, key, timeout, kwargs, env.show, k);
      }
      now := now + env.latency(k);
      var event := Event(now, answer.fields);
      var next := now + env.store(k);
      LoopStep(plan, head, k, sleepTime, woke, now, next, answer, event);
      InBucketInsert(server.events, bucketId, event, Loop(plan, next, executions).events);
      server.InsertEvent(bucketId, event);
      now := next;
    }
    assert Loop(plan, now, executions) == Trace([], Finished);
  }

  /**
   * `main`: repair the id and the deadline, set up the client and its
   * bucket, then run the loop.
   */
  method Watch(server: Server, questionId: string, kind: DialogType, title: Option<string>,
               until: DateTime, timeout: int, testing: bool, kwargs: map<string, ArgValue>, env: Env)
    returns (outcome: Outcome, bucketId: string)
    modifies server
    ensures bucketId == BucketId(ClientSetup(testing, env.hostname))
    ensures server.buckets == if bucketId in old(server.buckets) then old(server.buckets)
                              else old(server.buckets)[bucketId := EffectiveId(env.translit, questionId)]
    ensures var run := Loop(MainPlan(questionId, kind, title, until, timeout, kwargs, env), env.start, 0);
      && server.events == old(server.events) + InBucket(bucketId, run.events)
      && outcome == run.outcome
  {
    // the id and the deadline, repaired
    var id := questionId;
    if !IsValidId(id) {
      id := FixId(env.translit, id);
    }
    var deadline := until;
    if deadline.tz.None? {
      deadline := deadline.(tz := Some(env.zone));
    }
    assert id == EffectiveId(env.translit, questionId);
    assert deadline == CoerceDeadline(until, env.zone);

    var client := ClientSetup(testing, env.hostname);
    bucketId := BucketSetup(server, client, id);

    var key := if title.Some? && title.value != "" then title.value else id;
    assert Plan(Instant(deadline), kind, key, timeout, kwargs, env)
        == MainPlan(questionId, kind, title, until, timeout, kwargs, env);
    outcome := PromptUntil(server, bucketId, Instant(deadline), kind, key, timeout, kwargs, env);
  }

  // ---------------------------------------------------------------------
  // What a run of the loop stores

  /** The record stored for the `n`-th execution of the loop: the answer to the `n`-th dialog. */
  function Asked(p: Plan, n: nat): map<string, Field> {
    AnswerRecord(p.key, p.env.show(PromptRequest(p.kind, p.key, p.timeout, p.kwargs), n))
  }

  /** The `i`-th of `events` holds the record of execution `k + i`. */
  predicate AnswersFrom(p: Plan, k: nat, events: seq<Event>) {
    forall i :: 0 <= i < |events| ==> events[i].data == Asked(p, k + i)
  }

  /** Prepending the `k`-th record to records numbered from `k + 1` numbers them from `k`. */
  lemma AnswersShift(p: Plan, k: nat, head: Event, rest: seq<Event>)
    requires head.data == Asked(p, k)
    requires AnswersFrom(p, k + 1, rest)
    ensures AnswersFrom(p, k, [head] + rest)
  {
    var events := [head] + rest;
    forall i | 0 < i < |events| ensures events[i].data == Asked(p, k + i) {
      var j := i - 1;
      assert events[i] == rest[j];
      assert k + 1 + j == k + i;
    }
  }

  /**
   * The i-th stored event holds the answer record of the (k + i)-th dialog:
   * the run prompts once per firing and stores every answer, in order.
   */
  lemma {:induction false} LoopAnswers(p: Plan, now: int, k: nat)
    ensures AnswersFrom(p, k, Loop(p, now, k).events)
    decreases p.deadline - now
  {
    if now < p.deadline && !IsMultiField(p.kind) {
      var sleepTime := p.env.firing(k) - now;
      var stamp := Slept(now, sleepTime) + p.env.latency(k);
      var answer := AskOne(p.kind, p.key, p.timeout, p.kwargs, p.env.show, k);
      var next := stamp + p.env.store(k);
      LoopStep(p, now, k, sleepTime, Slept(now, sleepTime), stamp, next, answer, Event(stamp, answer.fields));
      LoopAnswers(p, next, k + 1);
      assert answer.fields == Asked(p, k);
      AnswersShift(p, k, Event(stamp, answer.fields), Loop(p, next, k + 1).events);
    }
  }

  /** Every event is stamped after `now`, and the stamps strictly increase. */
  predicate StampedAfter(now: int, events: seq<Event>) {
    && (forall i :: 0 <= i < |events| ==> now < events[i].timestamp)
    && (forall i, j :: 0 <= i < j < |events| ==> events[i].timestamp < events[j].timestamp)
  }

  /** An event stamped between `now` and the stamps of the rest keeps the order. */
  lemma StampsShift(now: int, head: Event, later: int, rest: seq<Event>)
    requires now < head.timestamp <= later
    requires StampedAfter(later, rest)
    ensures StampedAfter(now, [head] + rest)
  {
    var events := [head] + rest;
    forall i | 1 <= i < |events| ensures head.timestamp < events[i].timestamp {
      assert events[i] == rest[i - 1];
    }
    forall i, j | 0 <= i < j < |events| ensures events[i].timestamp < events[j].timestamp {
      if i > 0 {
        assert events[i] == rest[i - 1] && events[j] == rest[j - 1];
      }
    }
  }

  /** Every stored event is stamped after the loop head, and the stamps strictly increase. */
  lemma {:induction false} LoopStampsIncrease(p: Plan, now: int, k: nat)
    ensures StampedAfter(now, Loop(p, now, k).events)
    decreases p.deadline - now
  {
    if now < p.deadline && !IsMultiField(p.kind) {
      var sleepTime := p.env.firing(k) - now;
      var stamp := Slept(now, sleepTime) + p.env.latency(k);
      var answer := AskOne(p.kind, p.key, p.timeout, p.kwargs, p.env.show, k);
      var next := stamp + p.env.store(k);
      LoopStep(p, now, k, sleepTime, Slept(now, sleepTime), stamp, next, answer, Event(stamp, answer.fields));
      LoopStampsIncrease(p, next, k + 1);
      StampsShift(now, Event(stamp, answer.fields), next, Loop(p, next, k + 1).events);
    }
  }

  /**
   * The clock the loop head reads after storing each of `events` but the
   * last, the `i`-th of them stored by execution `k + i`, is before the
   * deadline.
   */
  predicate ContinuesBefore(p: Plan, k: nat, events: seq<Event>) {
    forall i :: 0 <= i < |events| - 1 ==> events[i].timestamp + p.env.store(k + i) < p.deadline
  }

  /** Prepending an event after which the loop head is before the deadline keeps `ContinuesBefore`. */
  lemma ContinuesShift(p: Plan, k: nat, head: Event, rest: seq<Event>)
    requires rest != [] ==> head.timestamp + p.env.store(k) < p.deadline
    requires ContinuesBefore(p, k + 1, rest)
    ensures ContinuesBefore(p, k, [head] + rest)
  {
    var events := [head] + rest;
    forall i | 0 < i < |events| - 1 ensures events[i].timestamp + p.env.store(k + i) < p.deadline {
      var j := i - 1;
      assert events[i] == rest[j];
      assert k + 1 + j == k + i;
    }
  }

  /**
   * There is a last event, and the loop head after storing it, the last one
   * stored by execution `k + |events| - 1`, reads a clock at or after the
   * deadline.
   */
  predicate EndsAtOrAfter(p: Plan, k: nat, events: seq<Event>) {
    |events| > 0 && events[|events| - 1].timestamp + p.env.store(k + |events| - 1) >= p.deadline
  }

  /** Prepending an event keeps the last one, or makes the event the last when nothing follows. */
  lemma EndsShift(p: Plan, k: nat, head: Event, rest: seq<Event>)
    requires rest == [] ==> head.timestamp + p.env.store(k) >= p.deadline
    requires rest != [] ==> EndsAtOrAfter(p, k + 1, rest)
    ensures EndsAtOrAfter(p, k, [head] + rest)
  {
    var events := [head] + rest;
    if rest != [] {
      assert events[|events| - 1] == rest[|rest| - 1];
      assert k + |events| - 1 == k + 1 + |rest| - 1;
    }
  }

  /**
   * The deadline is only tested at the loop head: after every event but the
   * last the loop head reads a clock before the deadline; a single-field run
   * that starts before the
   * deadline stores at least one event, and the loop head after the last one
   * reads a clock at or after the deadline; a run that starts at or after
   * the deadline stores nothing.
   */
  lemma {:induction false} LoopStopsAtDeadline(p: Plan, now: int, k: nat)
    ensures var events := Loop(p, now, k).events;
      && ContinuesBefore(p, k, events)
      && (now < p.deadline && !IsMultiField(p.kind) ==> EndsAtOrAfter(p, k, events))
      && (now >= p.deadline ==> events == [])
    decreases p.deadline - now
  {
    if now < p.deadline && !IsMultiField(p.kind) {
      var sleepTime := p.env.firing(k) - now;
      var stamp := Slept(now, sleepTime) + p.env.latency(k);
      var answer := AskOne(p.kind, p.key, p.timeout, p.kwargs, p.env.show, k);
      var next := stamp + p.env.store(k);
      var head := Event(stamp, answer.fields);
      LoopStep(p, now, k, sleepTime, Slept(now, sleepTime), stamp, next, answer, head);
      LoopStopsAtDeadline(p, next, k + 1);
      var events, rest := Loop(p, now, k).events, Loop(p, next, k + 1).events;
      ContinuesShift(p, k, head, rest);
      EndsShift(p, k, head, rest);
    }
  }

  /** Every event but the last is stamped before the deadline. */
  lemma LoopStampsBeforeDeadline(p: Plan, now: int, k: nat)
    ensures var events := Loop(p, now, k).events;
      forall i :: 0 <= i < |events| - 1 ==> events[i].timestamp < p.deadline
  {
    LoopStopsAtDeadline(p, now, k);
  }

  /**
   * A run with firings every 4 s from the start, a deadline at 9 s and a
   * user who takes 2 s on each dialog and dismisses it, with storing taking
   * no time.
   */
  function ExamplePlan(): Plan {
    var env := Env(s => s, "host", Zone("UTC", 0), 0, k => 4_000_000 * (k + 1),
                   (q, n) => Reply(false, ""), k => 2_000_000, k => 0);
    Plan(9_000_000, Entry, "mood", 60, map[], env)
  }

  /**
   * In the run of `ExamplePlan` the watcher prompts at 4 s and 8 s and
   * stores two events, the second stamped at 10 s, after the deadline.
   */
  lemma LoopExample()
    ensures var record := map["success" := Success(false), "mood" := Content("")];
      Loop(ExamplePlan(), 0, 0) == Trace([Event(6_000_000, record), Event(10_000_000, record)], Finished)
  {
    var p := ExamplePlan();
    var env := p.env;
    var record := map["success" := Success(false), "mood" := Content("")];
    assert !IsMultiField(Entry);
    assert Slept(0, 4_000_000) == 4_000_000 by {
      NormalFormUnique(TimeDelta(0, 4, 0));
    }
    assert Slept(6_000_000, 2_000_000) == 8_000_000 by {
      NormalFormUnique(TimeDelta(0, 2, 0));
    }
    var first := AskOne(Entry, "mood", 60, map[], env.show, 0);
    var second := AskOne(Entry, "mood", 60, map[], env.show, 1);
    assert first.fields == record && second.fields == record;
    LoopStep(p, 0, 0, 4_000_000, 4_000_000, 6_000_000, 6_000_000, first, Event(6_000_000, record));
    LoopStep(p, 6_000_000, 1, 2_000_000, 8_000_000, 10_000_000, 10_000_000, second, Event(10_000_000, record));
    assert Loop(p, 10_000_000, 2) == Trace([], Finished);
    assert Loop(p, 6_000_000, 1) == Trace([Event(10_000_000, record)], Finished);
    assert [Event(6_000_000, record)] + [Event(10_000_000, record)] == [Event(6_000_000, record), Event(10_000_000, record)];
  }
}
