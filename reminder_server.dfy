/**
 * The medicine-reminder server (`server/index.js`): `/schedule` stores a
 * reminder (a device token, the dates it is for, and a time of day) in an
 * in-memory list, and a cron job that runs every minute sends a push
 * notification for each reminder due at the current date and minute and
 * removes it.
 *
 * The request body is the JSON value body-parser decodes; the clock is the
 * tick's parameter; the push service is left out, and a tick returns the
 * tokens it attempts a send for, in order.
 */
module ReminderServer {
  import opened Wrappers
  import opened Text
  import opened Seqs
  import opened Dicts
  import opened Json

  /** JavaScript truthiness of a body field; an absent field is `undefined`, and arrays and objects are truthy even when empty. */
  predicate JsTruthy(v: Option<Value>) {
    match v
    case None => false
    case Some(x) =>
      match x
      case Null => false
      case Bool(b) => b
      case Number(n) => n != 0.0
      case String(s) => s != ""
      case _ => true
  }

  /** A stored reminder: the three fields of the request, as sent. */
  datatype Reminder = Reminder(token: Value, dates: Value, reminderTime: Value)

  const Scheduled: int := 200
  const BadRequest: int := 400

  /** The fields of the body; a body that is not an object has none. */
  function BodyFields(body: Value): Dict<string, Value> {
    if body.Object? then body.fields else []
  }

  /** `/schedule` accepts the request when token, dates and reminderTime are all truthy. */
  predicate Accepts(body: Value) {
    var f := BodyFields(body);
    JsTruthy(Get(f, "token")) && JsTruthy(Get(f, "dates")) && JsTruthy(Get(f, "reminderTime"))
  }

  function ReminderOf(body: Value): Reminder
    requires Accepts(body)
  {
    var f := BodyFields(body);
    Reminder(Get(f, "token").value, Get(f, "dates").value, Get(f, "reminderTime").value)
  }

  /**
   * The tick's log line calls `dates.join` and `token.slice`: only an array
   * of dates, and a token that is a string or an array, get past it.
   */
  predicate LogSafe(r: Reminder) {
    r.dates.List? && (r.token.String? || r.token.List?)
  }

  // ------------------------------------------------------------------
  // The clock
  // ------------------------------------------------------------------

  /** The fields of `new Date()` the tick reads, in local time. */
  datatype Clock = Clock(year: int, month: nat, day: nat, hour: nat, minute: nat)

  predicate ValidClock(now: Clock) {
    1 <= now.month <= 12 && 1 <= now.day <= 31 && now.hour < 24 && now.minute < 60
  }

  /** `YYYY-MM-DD`, month and day padded to two digits. */
  function DateString(now: Clock): string {
    IntToString(now.year) + "-" + Pad2(now.month) + "-" + Pad2(now.day)
  }

  /** `HH:MM`, both padded to two digits. */
  function TimeString(now: Clock): string {
    Pad2(now.hour) + ":" + Pad2(now.minute)
  }

  /** The time string is five characters, two digits, a colon and two digits, that read back as the hour and the minute. */
  lemma TimeStringFormat(now: Clock)
    requires ValidClock(now)
    ensures var t := TimeString(now);
      |t| == 5 && t[2] == ':'
      && IsDigit(t[0]) && IsDigit(t[1]) && IsDigit(t[3]) && IsDigit(t[4])
      && DigitsValue(t[..2]) == now.hour && DigitsValue(t[3..]) == now.minute
  {
    var t := TimeString(now);
    assert t[..2] == Pad2(now.hour);
    assert t[3..] == Pad2(now.minute);
  }

  /** Two clocks give the same time string exactly when they agree on hour and minute. */
  lemma TimeStringInjective(a: Clock, b: Clock)
    requires ValidClock(a) && ValidClock(b)
    ensures TimeString(a) == TimeString(b) <==> a.hour == b.hour && a.minute == b.minute
  {
    TimeStringFormat(a);
    TimeStringFormat(b);
  }

  /** The date string ends in `-MM-DD`, which read back as the month and the day, after the year. */
  lemma DateStringFormat(now: Clock)
    requires ValidClock(now)
    ensures var d := DateString(now); var n := |d|;
      n >= 7 && d[n - 6] == '-' && d[n - 3] == '-'
      && d[..n - 6] == IntToString(now.year)
      && DigitsValue(d[n - 5..n - 3]) == now.month && DigitsValue(d[n - 2..]) == now.day
  {
    var d := DateString(now);
    var y := IntToString(now.year);
    var n := |d|;
    assert d[..n - 6] == y;
    assert d[n - 5..n - 3] == Pad2(now.month);
    assert d[n - 2..] == Pad2(now.day);
  }

  /** Two clocks give the same date string exactly when they agree on year, month and day. */
  lemma DateStringInjective(a: Clock, b: Clock)
    requires ValidClock(a) && ValidClock(b)
    ensures DateString(a) == DateString(b) <==> a.year == b.year && a.month == b.month && a.day == b.day
  {
    if DateString(a) == DateString(b) {
      SameDateYear(a, b);
      SameDateMonthDay(a, b);
    }
  }

  lemma SameDateYear(a: Clock, b: Clock)
    requires ValidClock(a) && ValidClock(b) && DateString(a) == DateString(b)
    ensures a.year == b.year
  {
    DateStringFormat(a);
    DateStringFormat(b);
    var d := DateString(a);
    assert IntToString(a.year) == d[..|d| - 6] == IntToString(b.year);
    IntToStringInjective(a.year, b.year);
  }

  lemma SameDateMonthDay(a: Clock, b: Clock)
    requires ValidClock(a) && ValidClock(b) && DateString(a) == DateString(b)
    ensures a.month == b.month && a.day == b.day
  {
    DateStringFormat(a);
    DateStringFormat(b);
  }

  lemma IntToStringInjective(a: int, b: int)
    requires IntToString(a) == IntToString(b)
    ensures a == b
  {
    IntToStringSign(a);
    IntToStringSign(b);
    if a < 0 && b < 0 {
      assert NatToString(-a) == IntToString(a)[1..] == NatToString(-b);
      NatToStringInjective(-a, -b);
    } else if a >= 0 && b >= 0 {
      NatToStringInjective(a, b);
    }
  }

  /** The string starts with a minus exactly for a negative number, followed by the digits of its magnitude. */
  lemma IntToStringSign(n: int)
    ensures n < 0 <==> IntToString(n)[0] == '-'
    ensures n < 0 ==> IntToString(n)[1..] == NatToString(-n)
    ensures n >= 0 ==> IntToString(n) == NatToString(n)
  {
    if n >= 0 {
      assert IsDigit(NatToString(n)[0]);
    }
  }

  // ------------------------------------------------------------------
  // A tick
  // ------------------------------------------------------------------

  /**
   * `dates.includes(nowDateStr) && nowTimeStr === reminderTime`, for a
   * reminder that got past the log line (its dates are an array).
   */
  predicate Due(r: Reminder, now: Clock) {
    r.dates.List? && String(DateString(now)) in r.dates.items && r.reminderTime == String(TimeString(now))
  }

  function DueAt(now: Clock): Reminder -> bool {
    r => Due(r, now)
  }

  function NotDueAt(now: Clock): Reminder -> bool {
    r => !Due(r, now)
  }

  /** The tokens of the reminders, in order. */
  function Tokens(rs: seq<Reminder>): (r: seq<Value>)
    ensures |r| == |rs|
    ensures forall i :: 0 <= i < |rs| ==> r[i] == rs[i].token
  {
    seq(|rs|, i requires 0 <= i < |rs| => rs[i].token)
  }

  /**
   * One cron run: the reminders kept and the tokens sent to. When the log
   * line throws on some reminder, the callback stops before the filter: the
   * list is not reassigned and nothing is sent.
   */
  function TickResult(rs: seq<Reminder>, now: Clock): (seq<Reminder>, seq<Value>) {
    if forall r :: r in rs ==> LogSafe(r) then (Filter(rs, NotDueAt(now)), Tokens(Filter(rs, DueAt(now))))
    else (rs, [])
  }

  /**
   * With every reminder past the log line, a tick keeps the reminders that
   * are not due, in order, attempts one send for each due one, in order,
   * and loses or adds nothing: the kept and the sent add up to the old list.
   */
  lemma TickPartition(rs: seq<Reminder>, now: Clock)
    requires forall x :: x in rs ==> LogSafe(x)
    ensures TickResult(rs, now).0 == Filter(rs, NotDueAt(now))
    ensures TickResult(rs, now).1 == Tokens(Filter(rs, DueAt(now)))
    ensures |TickResult(rs, now).0| + |TickResult(rs, now).1| == |rs|
  {
    FilterSplit(rs, DueAt(now), NotDueAt(now));
  }

  /**
   * A tick removes exactly the due reminders and sends to each of them; a
   * reminder for today at another time stays.
   */
  lemma TickRemovesDue(rs: seq<Reminder>, now: Clock, r: Reminder)
    requires forall x :: x in rs ==> LogSafe(x)
    requires r in rs
    ensures r in TickResult(rs, now).0 <==> !Due(r, now)
    ensures Due(r, now) ==> r.token in TickResult(rs, now).1
    ensures r.reminderTime != String(TimeString(now)) ==> r in TickResult(rs, now).0
  {
    if !Due(r, now) {
      FilterComplete(rs, NotDueAt(now), r);
    } else {
      var due := Filter(rs, DueAt(now));
      FilterComplete(rs, DueAt(now), r);
      var i :| 0 <= i < |due| && due[i] == r;
      assert Tokens(due)[i] == r.token;
    }
  }

  /** Nothing a tick keeps is due or new. */
  lemma TickKeepsOnlyOld(rs: seq<Reminder>, now: Clock, k: Reminder)
    requires k in TickResult(rs, now).0
    ensures k in rs
    ensures (forall x :: x in rs ==> LogSafe(x)) ==> !Due(k, now)
  {
  }

  /** A tick keeps every reminder safe for the log line when they all were. */
  lemma TickKeepsLogSafe(rs: seq<Reminder>, now: Clock)
    requires forall x :: x in rs ==> LogSafe(x)
    ensures forall x :: x in TickResult(rs, now).0 ==> LogSafe(x)
  {
  }

  /**
   * As written: once any stored reminder has dates that are not an array,
   * or a token that is neither a string nor an array, every tick throws at
   * the log line, whatever the time, so no reminder is ever sent or removed
   * again.
   */
  lemma {:induction false} StuckTick(rs: seq<Reminder>, now: Clock, bad: Reminder)
    requires bad in rs && !LogSafe(bad)
    ensures TickResult(rs, now) == (rs, [])
  {
  }

  /** Two request bodies for the same day and time: one with an array of dates, one with the date as a bare string. */
  const ExampleGood: Value := Object([("token", String("t1")), ("dates", List([String("2025-01-02")])), ("reminderTime", String("09:00"))])
  const ExampleBad: Value := Object([("token", String("t2")), ("dates", String("2025-01-02")), ("reminderTime", String("09:00"))])
  const ExampleNow: Clock := Clock(2025, 1, 2, 9, 0)

  /**
   * `/schedule` accepts a reminder whose dates are a single string; after
   * it, a reminder that is due is neither sent nor removed.
   */
  lemma StringDatesAccepted()
    ensures Accepts(ExampleGood) && Accepts(ExampleBad)
    ensures Due(ReminderOf(ExampleGood), ExampleNow)
    ensures var rs := [ReminderOf(ExampleGood), ReminderOf(ExampleBad)];
      TickResult(rs, ExampleNow) == (rs, [])
  {
    ExampleReminders();
    var g := ReminderOf(ExampleGood);
    var b := ReminderOf(ExampleBad);
    ExampleClock();
    assert Due(g, ExampleNow);
    StuckTick([g, b], ExampleNow, b);
  }

  /** Both bodies pass the check of `/schedule`, and are stored as they came. */
  lemma ExampleReminders()
    ensures Accepts(ExampleGood) && Accepts(ExampleBad)
    ensures ReminderOf(ExampleGood) == Reminder(String("t1"), List([String("2025-01-02")]), String("09:00"))
    ensures ReminderOf(ExampleBad) == Reminder(String("t2"), String("2025-01-02"), String("09:00"))
  {
    StoredAsSent(String("t1"), List([String("2025-01-02")]), String("09:00"));
    StoredAsSent(String("t2"), String("2025-01-02"), String("09:00"));
  }

  /** A body with the three fields in order, all truthy, is accepted and stored as it came. */
  lemma StoredAsSent(token: Value, dates: Value, time: Value)
    requires JsTruthy(Some(token)) && JsTruthy(Some(dates)) && JsTruthy(Some(time))
    ensures var body := Object([("token", token), ("dates", dates), ("reminderTime", time)]);
      Accepts(body) && ReminderOf(body) == Reminder(token, dates, time)
  {
    var f := [("token", token), ("dates", dates), ("reminderTime", time)];
    assert "token" != "dates" && "token" != "reminderTime" && "dates" != "reminderTime";
    assert Get(f, "token") == Some(token);
    assert Get(f, "dates") == Some(dates);
    assert Get(f[2..], "reminderTime") == Some(time);
    assert Get(f[1..], "reminderTime") == Some(time);
    assert Get(f, "reminderTime") == Some(time);
  }

  /** The date and time strings of 2 January 2025, 09:00. */
  lemma ExampleClock()
    ensures DateString(ExampleNow) == "2025-01-02"
    ensures TimeString(ExampleNow) == "09:00"
  {
  }

  /** Corrected: `/schedule` also demands an array of dates and a string token. */
  predicate AcceptsChecked(body: Value) {
    Accepts(body) && ReminderOf(body).dates.List? && ReminderOf(body).token.String?
  }

  /** The corrected check rejects what the original accepts only when the reminder would block the log line, and admits only reminders that do not. */
  lemma AcceptsCheckedSafe(body: Value)
    ensures AcceptsChecked(body) ==> Accepts(body) && LogSafe(ReminderOf(body))
    ensures Accepts(body) && LogSafe(ReminderOf(body)) && ReminderOf(body).token.String? ==> AcceptsChecked(body)
  {
  }

  lemma TickStep(rs: seq<Reminder>, i: nat, now: Clock, due: seq<Reminder>)
    requires i < |rs|
    ensures Filter(rs[..i + 1], NotDueAt(now)) == Filter(rs[..i], NotDueAt(now)) + if Due(rs[i], now) then [] else [rs[i]]
    ensures Filter(rs[..i + 1], DueAt(now)) == Filter(rs[..i], DueAt(now)) + if Due(rs[i], now) then [rs[i]] else []
    ensures Tokens(due + [rs[i]]) == Tokens(due) + [rs[i].token]
  {
    assert rs[..i + 1] == rs[..i] + [rs[i]];
    FilterSnoc(rs[..i], rs[i], NotDueAt(now));
    FilterSnoc(rs[..i], rs[i], DueAt(now));
    TokensSnoc(due, rs[i]);
  }

  lemma TokensSnoc(rs: seq<Reminder>, r: Reminder)
    ensures Tokens(rs + [r]) == Tokens(rs) + [r.token]
  {
  }

  // ------------------------------------------------------------------
  // The server state
  // ------------------------------------------------------------------

  /** The module-level `reminders` array and the two handlers that change it. */
  class ReminderService {
    var reminders: seq<Reminder>

    /** Every stored reminder gets past the tick's log line. */
    predicate Valid()
      reads this
    {
      forall r :: r in reminders ==> LogSafe(r)
    }

    constructor ()
      ensures reminders == []
      ensures Valid()
    {
      reminders := [];
    }

    /** `/schedule` as written: a 400 for a missing field, otherwise one reminder appended. */
    method Schedule(body: Value) returns (status: int)
      modifies this
      ensures status == (if Accepts(body) then Scheduled else BadRequest)
      ensures reminders == if Accepts(body) then old(reminders) + [ReminderOf(body)] else old(reminders)
    {
      var f := BodyFields(body);
      var token, dates, reminderTime := Get(f, "token"), Get(f, "dates"), Get(f, "reminderTime");
      if !JsTruthy(token) || !JsTruthy(dates) || !JsTruthy(reminderTime) {
        return BadRequest;
      }
      reminders := reminders + [Reminder(token.value, dates.value, reminderTime.value)];
      status := Scheduled;
    }

    /** `/schedule` with the shape check: the store stays safe for the log line. */
    method ScheduleChecked(body: Value) returns (status: int)
      requires Valid()
      modifies this
      ensures Valid()
      ensures status == (if AcceptsChecked(body) then Scheduled else BadRequest)
      ensures reminders == if AcceptsChecked(body) then old(reminders) + [ReminderOf(body)] else old(reminders)
    {
      if !AcceptsChecked(body) {
        return BadRequest;
      }
      status := Schedule(body);
    }

    /** The cron callback: the log line over all reminders, then the filter that sends and drops the due ones. */
    method Tick(now: Clock) returns (sends: seq<Value>)
      modifies this
      ensures (reminders, sends) == TickResult(old(reminders), now)
      ensures old(Valid()) ==> Valid()
    {
      var rs := reminders;
      var i := 0;
      while i < |rs|
        invariant 0 <= i <= |rs|
        invariant forall j :: 0 <= j < i ==> LogSafe(rs[j])
      {
        if !LogSafe(rs[i]) {
          assert rs[i] in rs;
          return [];
        }
        i := i + 1;
      }
      var kept: seq<Reminder> := [];
      var due: seq<Reminder> := [];
      sends := [];
      i := 0;
      while i < |rs|
        invariant 0 <= i <= |rs|
        invariant kept == Filter(rs[..i], NotDueAt(now))
        invariant due == Filter(rs[..i], DueAt(now))
        invariant sends == Tokens(due)
      {
        var r := rs[i];
        TickStep(rs, i, now, due);
        if Due(r, now) {
          due := due + [r];
          sends := sends + [r.token];
        } else {
          kept := kept + [r];
        }
        i := i + 1;
      }
      assert rs[..i] == rs;
      reminders := kept;
    }
  }
}
