/** How late a script may run before the daily limits of `website/server/draft-code.ts` break, exactly: a day
  for the tokens of all accounts, and two minutes more for the ten reservations of one, because the limit of
  three in a minute stands in the way. */
module QuotaDays {
  import opened Quota

  const LAG: nat := DAY + 2 * MINUTE
  const MINUTES: nat := 1440

  // -------------------------------------------------------------------------
  // Minutes of a day
  // -------------------------------------------------------------------------

  /** The counter of the `j`-th minute of a day. */
  function MinuteOf(user: nat, day: nat, j: nat): Key {
    MinuteKey(user, day * MINUTES + j)
  }

  lemma MinutesOfDay(t: nat)
    ensures var day := t / DAY; var j := (t - day * DAY) / MINUTE;
      0 <= t - day * DAY < DAY && 0 <= j < MINUTES && t / MINUTE == day * MINUTES + j
  {
    var day, r := t / DAY, t % DAY;
    assert t == day * DAY + r;
    assert t == MINUTE * (day * MINUTES) + r;
    var j := r / MINUTE;
    assert r == MINUTE * j + r % MINUTE;
    assert t == MINUTE * (day * MINUTES + j) + r % MINUTE;
  }

  /** A request of another day does not touch the counters of a day's minutes. */
  lemma OtherDay(a: Ask, sentAt: nat, user: nat, day: nat, j: nat)
    requires a == AskAt(a.user, a.tokens, sentAt) && j < MINUTES
    ensures Touches(MinuteOf(user, day, j), a) ==> a.user == user && a.day == day
  {
    MinutesOfDay(sentAt);
    AskParts(a, sentAt);
    hide AskAt;
  }

  lemma AskParts(a: Ask, sentAt: nat)
    requires a == AskAt(a.user, a.tokens, sentAt)
    ensures a.minute == sentAt / MINUTE && a.day == sentAt / DAY
  {
  }

  // -------------------------------------------------------------------------
  // One accepted reservation
  // -------------------------------------------------------------------------

  /** What it does to a counter. */
  lemma ExecutedKey(s: State, id: nat, budget: nat, lag: nat, key: Key)
    requires Enabled(s, Execute(id), lag) && Accepts(s.store, s.requests[id].ask, budget, s.now)
    ensures var a, s' := s.requests[id].ask, Next(s, Execute(id), budget, lag);
      && s'.now == s.now && Total(s'.log, key) == Total(s.log, key) + Adds(key, a)
      && if Touches(key, a) then
           key in s'.store && s'.store[key] == Entry(Get(s.store, key, s.now) + Adds(key, a), s.now + if key.MinuteKey? then MINUTE_TTL else DAY_TTL)
         else (key in s'.store <==> key in s.store) && (key in s'.store ==> s'.store[key] == s.store[key])
  {
    var a := s.requests[id].ask;
    ChargedKey(s.store, a, s.now, key);
    TotalOfMore(s.log, Accepted(id, a), key);
    hide Charged, Accepts, Total, Get;
  }

  // -------------------------------------------------------------------------
  // The day of one account
  // -------------------------------------------------------------------------

  ghost function OfDay(s: State, user: nat, day: nat): nat {
    Total(s.log, DayKey(user, day))
  }

  ghost function OfMinute(s: State, user: nat, day: nat, j: nat): nat {
    Total(s.log, MinuteOf(user, day, j))
  }

  ghost predicate Untouched(s: State, user: nat, day: nat, j: nat) {
    MinuteOf(user, day, j) !in s.store && OfMinute(s, user, day, j) == 0
  }

  /** The minute's counter is true, and safe until then. */
  ghost predicate True(s: State, user: nat, day: nat, j: nat, until: nat) {
    && OfMinute(s, user, day, j) <= 3
    && (Untouched(s, user, day, j)
        || (var key := MinuteOf(user, day, j);
            key in s.store && s.store[key].value == OfMinute(s, user, day, j) && s.store[key].expires >= until))
  }

  ghost predicate NoneYet(s: State, user: nat, day: nat) {
    && DayKey(user, day) !in s.store && OfDay(s, user, day) == 0
    && Untouched(s, user, day, 0) && Untouched(s, user, day, 1)
    && Untouched(s, user, day, MINUTES - 2) && Untouched(s, user, day, MINUTES - 1)
  }

  /** The day's counter is true.  If all reservations came in the first two minutes of the day, it may
      expire before the day's last requests have run. */
  ghost predicate CountsAll(s: State, user: nat, day: nat) {
    var key, base := DayKey(user, day), day * DAY;
    && key in s.store && s.store[key].value == OfDay(s, user, day) <= 10
    && base + DAY_TTL <= s.store[key].expires <= s.now + DAY_TTL
    && (s.store[key].expires < base + DAY_TTL + 2 * MINUTE ==>
          && OfDay(s, user, day) == OfMinute(s, user, day, 0) + OfMinute(s, user, day, 1)
          && True(s, user, day, 0, base + 2 * MINUTE) && True(s, user, day, 1, base + 2 * MINUTE)
          && Untouched(s, user, day, MINUTES - 2) && Untouched(s, user, day, MINUTES - 1)
          && (s.store[key].expires < base + DAY_TTL + MINUTE ==> OfMinute(s, user, day, 1) == 0))
  }

  /** It has expired once: only requests of the last two minutes can still run, and of the last one if there
      were any in the second. */
  ghost predicate Expired(s: State, user: nat, day: nat) {
    var key, base := DayKey(user, day), day * DAY;
    && key in s.store && base + DAY_TTL <= s.now
    && OfDay(s, user, day) == OfMinute(s, user, day, 0) + OfMinute(s, user, day, 1)
                              + OfMinute(s, user, day, MINUTES - 2) + OfMinute(s, user, day, MINUTES - 1)
    && OfMinute(s, user, day, 0) <= 3 && OfMinute(s, user, day, 1) <= 3
    && True(s, user, day, MINUTES - 2, base + DAY_TTL + 2 * MINUTE) && True(s, user, day, MINUTES - 1, base + DAY_TTL + 2 * MINUTE)
    && (OfMinute(s, user, day, 1) > 0 ==> OfMinute(s, user, day, MINUTES - 2) == 0 && s.now >= base + DAY_TTL + MINUTE)
  }

  ghost predicate DaySound(s: State, user: nat, day: nat) {
    NoneYet(s, user, day) || CountsAll(s, user, day) || Expired(s, user, day)
  }

  lemma DaySoundMeans(s: State, user: nat, day: nat)
    requires DaySound(s, user, day)
    ensures OfDay(s, user, day) <= 10
  {
    hide Total;
  }

  ghost predicate MinuteStays(s: State, s': State, user: nat, day: nat, j: nat) {
    var key := MinuteOf(user, day, j);
    && OfMinute(s', user, day, j) == OfMinute(s, user, day, j)
    && (key in s'.store <==> key in s.store) && (key in s'.store ==> s'.store[key] == s.store[key])
  }

  lemma StaysTrue(s: State, s': State, user: nat, day: nat, j: nat)
    requires MinuteStays(s, s', user, day, j)
    ensures forall until :: True(s, user, day, j, until) ==> True(s', user, day, j, until)
    ensures Untouched(s, user, day, j) ==> Untouched(s', user, day, j)
  {
    hide Total, MinuteOf;
  }

  /** Nothing of another account or day touches the counters. */
  lemma OthersKeepDay(s: State, id: nat, budget: nat, lag: nat, user: nat, day: nat)
    requires Dated(s) && Enabled(s, Execute(id), lag) && Accepts(s.store, s.requests[id].ask, budget, s.now)
    requires DaySound(s, user, day) && !Touches(DayKey(user, day), s.requests[id].ask)
    ensures DaySound(Next(s, Execute(id), budget, lag), user, day)
  {
    var s' := Next(s, Execute(id), budget, lag);
    AskIsDated(s, id);
    ExecutedKey(s, id, budget, lag, DayKey(user, day));
    OtherMinute(s, id, budget, lag, user, day, 0);
    OtherMinute(s, id, budget, lag, user, day, 1);
    OtherMinute(s, id, budget, lag, user, day, MINUTES - 2);
    OtherMinute(s, id, budget, lag, user, day, MINUTES - 1);
    hide Next, Total, Accepts, Dated, Enabled, MinuteOf, True, Untouched;
    StaysTrue(s, s', user, day, 0);
    StaysTrue(s, s', user, day, 1);
    StaysTrue(s, s', user, day, MINUTES - 2);
    StaysTrue(s, s', user, day, MINUTES - 1);
    assert forall j :: MinuteStays(s, s', user, day, j) ==> OfMinute(s', user, day, j) == OfMinute(s, user, day, j);
    hide MinuteStays, OfMinute;
  }

  lemma OtherMinute(s: State, id: nat, budget: nat, lag: nat, user: nat, day: nat, j: nat)
    requires Dated(s) && Enabled(s, Execute(id), lag) && Accepts(s.store, s.requests[id].ask, budget, s.now) && j < MINUTES
    requires !Touches(DayKey(user, day), s.requests[id].ask) || !Touches(MinuteOf(user, day, j), s.requests[id].ask)
    ensures MinuteStays(s, Next(s, Execute(id), budget, lag), user, day, j)
  {
    var r := s.requests[id];
    AskIsDated(s, id);
    OtherDay(r.ask, r.sentAt, user, day, j);
    ExecutedKey(s, id, budget, lag, MinuteOf(user, day, j));
    hide Next, Total, Accepts, Dated, Enabled, AskAt;
  }

  /** The minute that a reservation of the day belongs to, and what it does to it. */
  lemma OwnMinute(s: State, id: nat, budget: nat, lag: nat, user: nat, day: nat) returns (j: nat)
    requires Dated(s) && Enabled(s, Execute(id), lag) && Accepts(s.store, s.requests[id].ask, budget, s.now)
    requires Touches(DayKey(user, day), s.requests[id].ask)
    ensures var base, sentAt := day * DAY, s.requests[id].sentAt;
      && j < MINUTES && base + j * MINUTE <= sentAt < base + (j + 1) * MINUTE
      && sentAt <= s.now <= sentAt + lag
    ensures Touches(MinuteOf(user, day, j), s.requests[id].ask)
    ensures forall k :: 0 <= k < MINUTES && k != j ==> !Touches(MinuteOf(user, day, k), s.requests[id].ask)
    ensures Get(s.store, MinuteOf(user, day, j), s.now) < 3 && Get(s.store, DayKey(user, day), s.now) < 10
  {
    var r := s.requests[id];
    AskIsDated(s, id);
    MinutesOfDay(r.sentAt);
    AskParts(r.ask, r.sentAt);
    j := (r.sentAt - day * DAY) / MINUTE;
    hide AskAt, Dated, Get;
  }

  /** What it does to the counter of the day. */
  lemma DayGains(s: State, id: nat, budget: nat, lag: nat, user: nat, day: nat)
    requires Enabled(s, Execute(id), lag) && Accepts(s.store, s.requests[id].ask, budget, s.now)
    requires Touches(DayKey(user, day), s.requests[id].ask)
    ensures var key, s' := DayKey(user, day), Next(s, Execute(id), budget, lag);
      && s'.now == s.now && OfDay(s', user, day) == OfDay(s, user, day) + 1
      && key in s'.store && s'.store[key] == Entry(Get(s.store, key, s.now) + 1, s.now + DAY_TTL)
  {
    ExecutedKey(s, id, budget, lag, DayKey(user, day));
    hide Next, Total, Accepts, Enabled;
  }

  /** And to the counters of its minutes. */
  ghost predicate MinuteGains(s: State, s': State, user: nat, day: nat, j: nat) {
    var key := MinuteOf(user, day, j);
    && OfMinute(s', user, day, j) == OfMinute(s, user, day, j) + 1
    && key in s'.store && s'.store[key] == Entry(Get(s.store, key, s.now) + 1, s.now + MINUTE_TTL)
    && Get(s.store, key, s.now) < 3
  }

  /** Of two minutes, the first is that of the reservation. */
  lemma MinutesGain(s: State, id: nat, budget: nat, lag: nat, user: nat, day: nat, j: nat, k: nat)
    requires Dated(s) && Enabled(s, Execute(id), lag) && Accepts(s.store, s.requests[id].ask, budget, s.now)
    requires j < MINUTES && k < MINUTES && k != j && Touches(MinuteOf(user, day, j), s.requests[id].ask)
    ensures var s' := Next(s, Execute(id), budget, lag); MinuteGains(s, s', user, day, j) && MinuteStays(s, s', user, day, k)
  {
    var a := s.requests[id].ask;
    ExecutedKey(s, id, budget, lag, MinuteOf(user, day, j));
    assert Get(s.store, MinuteOf(user, day, j), s.now) < 3;
    OtherMinute(s, id, budget, lag, user, day, k);
    hide Next, Total, Accepts, Dated, Enabled, Get;
  }

  /** A true minute stays true, if its script runs early enough for it. */
  lemma TrueGains(s: State, s': State, user: nat, day: nat, j: nat, until: nat)
    requires True(s, user, day, j, until) && MinuteGains(s, s', user, day, j)
    requires s.now < until <= s.now + MINUTE_TTL
    ensures True(s', user, day, j, until)
  {
    hide Total, MinuteOf;
  }

  /** What is known in the first two minutes of the day. */
  ghost predicate Early(s: State, user: nat, day: nat) {
    var base := day * DAY;
    && OfDay(s, user, day) == OfMinute(s, user, day, 0) + OfMinute(s, user, day, 1)
    && True(s, user, day, 0, base + 2 * MINUTE) && True(s, user, day, 1, base + 2 * MINUTE)
    && Untouched(s, user, day, MINUTES - 2) && Untouched(s, user, day, MINUTES - 1)
    && (s.now < base + MINUTE ==> OfMinute(s, user, day, 1) == 0)
  }

  /** An accepted reservation of the day, while its counter has not expired. */
  lemma AcceptedInTime(s: State, id: nat, budget: nat, lag: nat, user: nat, day: nat)
    requires Dated(s) && Enabled(s, Execute(id), lag) && Accepts(s.store, s.requests[id].ask, budget, s.now) && lag <= LAG
    requires Touches(DayKey(user, day), s.requests[id].ask)
    requires NoneYet(s, user, day) || (CountsAll(s, user, day) && s.now < s.store[DayKey(user, day)].expires)
    ensures CountsAll(Next(s, Execute(id), budget, lag), user, day)
  {
    var j := OwnMinute(s, id, budget, lag, user, day);
    DayGains(s, id, budget, lag, user, day);
    var s' := Next(s, Execute(id), budget, lag);
    hide Next, Total, Accepts, Dated, Enabled, True, Untouched, Touches, MinuteOf;
    if s.now < day * DAY + 2 * MINUTE {
      assert j <= 1;
      MinutesGain(s, id, budget, lag, user, day, j, 1 - j);
      MinutesGain(s, id, budget, lag, user, day, j, MINUTES - 2);
      MinutesGain(s, id, budget, lag, user, day, j, MINUTES - 1);
      hide MinuteGains, MinuteStays;
      AcceptedEarly(s, s', user, day, j);
    }
    hide MinuteGains, MinuteStays;
    InTimeCounts(s, s', user, day);
  }

  lemma InTimeCounts(s: State, s': State, user: nat, day: nat)
    requires var key, base := DayKey(user, day), day * DAY;
      && s'.now == s.now >= base && OfDay(s', user, day) == OfDay(s, user, day) + 1
      && key in s'.store && s'.store[key] == Entry(Get(s.store, key, s.now) + 1, s.now + DAY_TTL) && Get(s.store, key, s.now) < 10
    requires NoneYet(s, user, day) || (CountsAll(s, user, day) && s.now < s.store[DayKey(user, day)].expires)
    requires s.now < day * DAY + 2 * MINUTE ==> Early(s', user, day)
    ensures CountsAll(s', user, day)
  {
    hide Total, True, Untouched, OfMinute;
  }

  /** In the first two minutes of the day. */
  lemma AcceptedEarly(s: State, s': State, user: nat, day: nat, j: nat)
    requires j <= 1 && MinuteGains(s, s', user, day, j) && MinuteStays(s, s', user, day, 1 - j)
    requires MinuteStays(s, s', user, day, MINUTES - 2) && MinuteStays(s, s', user, day, MINUTES - 1)
    requires day * DAY + j * MINUTE <= s.now == s'.now < day * DAY + 2 * MINUTE && OfDay(s', user, day) == OfDay(s, user, day) + 1
    requires NoneYet(s, user, day) || CountsAll(s, user, day)
    ensures Early(s', user, day)
  {
    var until := day * DAY + 2 * MINUTE;
    EarlyMeans(s, user, day);
    hide NoneYet, CountsAll, True, Untouched;
    TrueGains(s, s', user, day, j, until);
    StaysTrue(s, s', user, day, 1 - j);
    StaysTrue(s, s', user, day, MINUTES - 2);
    StaysTrue(s, s', user, day, MINUTES - 1);
    hide OfMinute, Get, MinuteOf;
  }

  lemma EarlyMeans(s: State, user: nat, day: nat)
    requires s.now < day * DAY + 2 * MINUTE && (NoneYet(s, user, day) || CountsAll(s, user, day))
    ensures Early(s, user, day)
  {
    hide Total, MinuteOf;
  }

  /** The first reservation after the day's counter has expired. */
  lemma AcceptedAfterExpiry(s: State, id: nat, budget: nat, lag: nat, user: nat, day: nat)
    requires Dated(s) && Enabled(s, Execute(id), lag) && Accepts(s.store, s.requests[id].ask, budget, s.now) && lag <= LAG
    requires Touches(DayKey(user, day), s.requests[id].ask)
    requires CountsAll(s, user, day) && s.now >= s.store[DayKey(user, day)].expires
    ensures Expired(Next(s, Execute(id), budget, lag), user, day)
  {
    var base := day * DAY;
    var j := OwnMinute(s, id, budget, lag, user, day);
    DayGains(s, id, budget, lag, user, day);
    assert j == MINUTES - 2 || j == MINUTES - 1;
    var s' := Next(s, Execute(id), budget, lag);
    ExpiryMeans(s, user, day);
    hide Next, Total, Accepts, Dated, Enabled, CountsAll, True, Untouched, Touches;
    LastMinutes(s, id, budget, lag, user, day, j);
    hide OfMinute, Get, MinuteOf;
  }

  /** What is known when the counter of the day has expired and a script of the day may still run. */
  lemma ExpiryMeans(s: State, user: nat, day: nat)
    requires CountsAll(s, user, day) && s.store[DayKey(user, day)].expires <= s.now < day * DAY + DAY_TTL + 2 * MINUTE
    ensures var base, until := day * DAY, day * DAY + DAY_TTL + 2 * MINUTE;
      && base + DAY_TTL <= s.now
      && OfDay(s, user, day) == OfMinute(s, user, day, 0) + OfMinute(s, user, day, 1)
      && OfMinute(s, user, day, 0) <= 3 && OfMinute(s, user, day, 1) <= 3
      && OfMinute(s, user, day, MINUTES - 2) == 0 == OfMinute(s, user, day, MINUTES - 1)
      && True(s, user, day, MINUTES - 2, until) && True(s, user, day, MINUTES - 1, until)
      && (s.now < base + DAY_TTL + MINUTE ==> OfMinute(s, user, day, 1) == 0)
  {
    hide Total, MinuteOf;
  }

  /** What a reservation of one of the last two minutes does to these, and to the first two. */
  lemma LastMinutes(s: State, id: nat, budget: nat, lag: nat, user: nat, day: nat, j: nat)
    requires Dated(s) && Enabled(s, Execute(id), lag) && Accepts(s.store, s.requests[id].ask, budget, s.now)
    requires MINUTES - 2 <= j < MINUTES && Touches(MinuteOf(user, day, j), s.requests[id].ask)
    requires day * DAY + DAY_TTL <= s.now < day * DAY + DAY_TTL + 2 * MINUTE
    requires var until := day * DAY + DAY_TTL + 2 * MINUTE; True(s, user, day, MINUTES - 2, until) && True(s, user, day, MINUTES - 1, until)
    ensures var s', until, other := Next(s, Execute(id), budget, lag), day * DAY + DAY_TTL + 2 * MINUTE, 2 * MINUTES - 3 - j;
      && OfMinute(s', user, day, j) == OfMinute(s, user, day, j) + 1
      && OfMinute(s', user, day, other) == OfMinute(s, user, day, other)
      && OfMinute(s', user, day, 0) == OfMinute(s, user, day, 0) && OfMinute(s', user, day, 1) == OfMinute(s, user, day, 1)
      && True(s', user, day, MINUTES - 2, until) && True(s', user, day, MINUTES - 1, until)
  {
    var s', until, other := Next(s, Execute(id), budget, lag), day * DAY + DAY_TTL + 2 * MINUTE, 2 * MINUTES - 3 - j;
    hide Next, Total, Accepts, Dated, Enabled, True, Touches;
    MinutesGain(s, id, budget, lag, user, day, j, 0);
    MinutesGain(s, id, budget, lag, user, day, j, 1);
    MinutesGain(s, id, budget, lag, user, day, j, other);
    TrueGains(s, s', user, day, j, until);
    StaysTrue(s, s', user, day, other);
    hide OfMinute, Get, MinuteOf;
  }

  /** A later one. */
  lemma AcceptedLater(s: State, id: nat, budget: nat, lag: nat, user: nat, day: nat)
    requires Dated(s) && Enabled(s, Execute(id), lag) && Accepts(s.store, s.requests[id].ask, budget, s.now) && lag <= LAG
    requires Touches(DayKey(user, day), s.requests[id].ask)
    requires Expired(s, user, day)
    ensures Expired(Next(s, Execute(id), budget, lag), user, day)
  {
    var j := OwnMinute(s, id, budget, lag, user, day);
    DayGains(s, id, budget, lag, user, day);
    assert j == MINUTES - 2 || j == MINUTES - 1;
    hide Next, Total, Accepts, Dated, Enabled, True, Touches;
    LastMinutes(s, id, budget, lag, user, day, j);
    hide OfMinute, Get, MinuteOf;
  }

  lemma StepKeepsDay(s: State, step: Step, budget: nat, lag: nat, user: nat, day: nat)
    requires Dated(s) && DaySound(s, user, day) && Enabled(s, step, lag) && lag <= LAG
    ensures DaySound(Next(s, step, budget, lag), user, day)
  {
    if step.Execute? && Accepts(s.store, s.requests[step.id].ask, budget, s.now) {
      hide Accepts, Next, Enabled, Dated, NoneYet, CountsAll, Expired;
      if !Touches(DayKey(user, day), s.requests[step.id].ask) {
        OthersKeepDay(s, step.id, budget, lag, user, day);
      } else if Expired(s, user, day) {
        AcceptedLater(s, step.id, budget, lag, user, day);
      } else if NoneYet(s, user, day) {
        AcceptedInTime(s, step.id, budget, lag, user, day);
      } else {
        InTimeOrNot(s, step.id, budget, lag, user, day);
      }
    } else {
      NothingAccepted(s, step, budget, lag);
      TimePasses(s, Next(s, step, budget, lag), user, day);
    }
  }

  lemma InTimeOrNot(s: State, id: nat, budget: nat, lag: nat, user: nat, day: nat)
    requires Dated(s) && Enabled(s, Execute(id), lag) && Accepts(s.store, s.requests[id].ask, budget, s.now) && lag <= LAG
    requires Touches(DayKey(user, day), s.requests[id].ask) && CountsAll(s, user, day)
    ensures DaySound(Next(s, Execute(id), budget, lag), user, day)
  {
    assert DayKey(user, day) in s.store;
    hide Accepts, Next, Enabled, Dated, NoneYet, CountsAll, Expired;
    if s.now < s.store[DayKey(user, day)].expires {
      AcceptedInTime(s, id, budget, lag, user, day);
    } else {
      AcceptedAfterExpiry(s, id, budget, lag, user, day);
    }
  }

  lemma NothingAccepted(s: State, step: Step, budget: nat, lag: nat)
    requires Enabled(s, step, lag) && !(step.Execute? && Accepts(s.store, s.requests[step.id].ask, budget, s.now))
    ensures var s' := Next(s, step, budget, lag); s'.store == s.store && s'.log == s.log && s'.now >= s.now
  {
    hide Accepts, Charged;
  }

  lemma TimePasses(s: State, s': State, user: nat, day: nat)
    requires DaySound(s, user, day) && s'.store == s.store && s'.log == s.log && s'.now >= s.now
    ensures DaySound(s', user, day)
  {
    hide Total, MinuteOf;
  }

  lemma {:induction false} RunKeepsDay(s: State, steps: seq<Step>, budget: nat, lag: nat, user: nat, day: nat)
    requires Dated(s) && DaySound(s, user, day) && Runs(s, steps, budget, lag) && lag <= LAG
    ensures DaySound(Run(s, steps, budget, lag), user, day)
    decreases |steps|
  {
    hide Dated, DaySound, Enabled, Next;
    if steps != [] {
      StepKeepsDay(s, steps[0], budget, lag, user, day);
      StepDates(s, steps[0], budget, lag);
      RunKeepsDay(Next(s, steps[0], budget, lag), steps[1..], budget, lag, user, day);
    }
  }

  /** With scripts that run up to a day and two minutes late, an account has at most ten accepted
      reservations in a day. */
  lemma DayLimitHolds(steps: seq<Step>, budget: nat, lag: nat, user: nat, day: nat)
    requires Runs(START, steps, budget, lag) && lag <= LAG
    ensures Total(Run(START, steps, budget, lag).log, DayKey(user, day)) <= 10
  {
    assert DaySound(START, user, day);
    hide Runs, Run;
    RunKeepsDay(START, steps, budget, lag, user, day);
    DaySoundMeans(Run(START, steps, budget, lag), user, day);
  }

  // -------------------------------------------------------------------------
  // Later scripts break the limits
  // -------------------------------------------------------------------------

  lemma FirstStep(s: State, step: Step, steps: seq<Step>, budget: nat, lag: nat)
    requires Enabled(s, step, lag) && Runs(Next(s, step, budget, lag), steps, budget, lag)
    ensures Runs(s, [step] + steps, budget, lag)
    ensures Run(s, [step] + steps, budget, lag) == Run(Next(s, step, budget, lag), steps, budget, lag)
  {
    hide Enabled, Next;
    assert ([step] + steps)[1..] == steps;
  }

  lemma {:induction false} RunsJoin(s: State, a: seq<Step>, b: seq<Step>, budget: nat, lag: nat)
    requires Runs(s, a, budget, lag) && Runs(Run(s, a, budget, lag), b, budget, lag)
    ensures Runs(s, a + b, budget, lag) && Run(s, a + b, budget, lag) == Run(Run(s, a, budget, lag), b, budget, lag)
    decreases |a|
  {
    hide Enabled, Next;
    if a == [] {
      assert a + b == b;
    } else {
      RunsJoin(Next(s, a[0], budget, lag), a[1..], b, budget, lag);
      assert (a + b)[1..] == a[1..] + b;
    }
  }

  /** The requests from `first` to before `last` wait for their scripts, all asking for the same. */
  ghost predicate Wait(s: State, first: nat, last: nat, a: Ask, sentAt: nat) {
    forall id :: first <= id < last ==> id in s.requests && s.requests[id] == Request(a, sentAt, InFlight, Waiting)
  }

  ghost predicate Unused(s: State, first: nat) {
    forall id :: id in s.requests ==> id < first
  }

  /** Several requests of one account are sent at one time. */
  lemma {:induction false} SendMany(s: State, first: nat, n: nat, tokens: nat, budget: nat, lag: nat) returns (steps: seq<Step>)
    requires Unused(s, first)
    ensures Runs(s, steps, budget, lag)
    ensures var s' := Run(s, steps, budget, lag);
      && s'.now == s.now && s'.store == s.store && s'.log == s.log && Unused(s', first + n)
      && Wait(s', first, first + n, AskAt(0, tokens, s.now), s.now)
      && forall id :: id in s.requests ==> id in s'.requests && s'.requests[id] == s.requests[id]
    decreases n
  {
    if n == 0 {
      steps := [];
    } else {
      var step := Send(first, 0, tokens);
      var s1 := Next(s, step, budget, lag);
      var rest := SendMany(s1, first + 1, n - 1, tokens, budget, lag);
      FirstStep(s, step, rest, budget, lag);
      steps := [step] + rest;
      assert first in s1.requests;
    }
  }

  /** And their scripts run at one time, with room for all of them. */
  lemma {:induction false} ExecuteMany(s: State, first: nat, n: nat, a: Ask, sentAt: nat, budget: nat, lag: nat) returns (steps: seq<Step>)
    requires Wait(s, first, first + n, a, sentAt) && s.now <= sentAt + lag && a.user == 0
    requires Get(s.store, MinuteKey(0, a.minute), s.now) + n <= 3
    requires Get(s.store, DayKey(0, a.day), s.now) + n <= 10
    requires Get(s.store, TokensKey(a.day), s.now) + n * a.tokens <= budget
    ensures Runs(s, steps, budget, lag)
    ensures var s' := Run(s, steps, budget, lag);
      && s'.now == s.now
      && (forall id :: id in s.requests && (id < first || first + n <= id) ==> id in s'.requests && s'.requests[id] == s.requests[id])
      && (forall key :: Grown(s, s', key, a, n))
      && (Unused(s, first + n) ==> Unused(s', first + n))
    decreases n
  {
    if n == 0 {
      steps := [];
      hide Total, Get;
      assert forall key :: 0 * Adds(key, a) == 0;
    } else {
      assert n * a.tokens == a.tokens + (n - 1) * a.tokens;
      var step := Execute(first);
      var s1 := ExecuteFirst(s, first, n, a, sentAt, budget, lag);
      hide Next, Enabled, Total, Get, Adds, Touches;
      var rest := ExecuteMany(s1, first + 1, n - 1, a, sentAt, budget, lag);
      FirstStep(s, step, rest, budget, lag);
      steps := [step] + rest;
      var s' := Run(s, steps, budget, lag);
      forall key ensures Grown(s, s', key, a, n) {
        assert Grown(s, s1, key, a, 1) && Grown(s1, s', key, a, n - 1);
        GrownTwice(s, s1, s', key, a, n);
      }
    }
  }

  /** A counter and what was accepted for it grew by `n` such reservations, and if it has then, it expires as
      it would have been set now. */
  ghost predicate Grown(s: State, s': State, key: Key, a: Ask, n: nat) {
    && Total(s'.log, key) == Total(s.log, key) + n * Adds(key, a)
    && Get(s'.store, key, s'.now) == Get(s.store, key, s.now) + n * Adds(key, a)
    && (if Touches(key, a) && n > 0 then
          key in s'.store && s'.store[key].expires == s.now + (if key.MinuteKey? then MINUTE_TTL else DAY_TTL)
        else (key in s'.store <==> key in s.store) && (key in s'.store ==> s'.store[key] == s.store[key]))
  }

  lemma GrownTwice(s: State, s1: State, s': State, key: Key, a: Ask, n: nat)
    requires n > 0 && s1.now == s.now == s'.now && Grown(s, s1, key, a, 1) && Grown(s1, s', key, a, n - 1)
    ensures Grown(s, s', key, a, n)
  {
    hide Total, Get, Adds, Touches;
    assert n * Adds(key, a) == Adds(key, a) + (n - 1) * Adds(key, a);
  }

  lemma ExecuteFirst(s: State, first: nat, n: nat, a: Ask, sentAt: nat, budget: nat, lag: nat) returns (s1: State)
    requires n > 0 && Wait(s, first, first + n, a, sentAt) && s.now <= sentAt + lag && a.user == 0
    requires Get(s.store, MinuteKey(0, a.minute), s.now) < 3
    requires Get(s.store, DayKey(0, a.day), s.now) < 10
    requires Get(s.store, TokensKey(a.day), s.now) + a.tokens <= budget
    ensures Enabled(s, Execute(first), lag) && s1 == Next(s, Execute(first), budget, lag) && s1.now == s.now
    ensures Wait(s1, first + 1, first + n, a, sentAt)
    ensures forall id :: id in s.requests && id != first ==> id in s1.requests && s1.requests[id] == s.requests[id]
    ensures forall id :: id in s1.requests ==> id in s.requests
    ensures forall key :: Grown(s, s1, key, a, 1)
    ensures Get(s1.store, MinuteKey(0, a.minute), s1.now) == Get(s.store, MinuteKey(0, a.minute), s.now) + 1
    ensures Get(s1.store, DayKey(0, a.day), s1.now) == Get(s.store, DayKey(0, a.day), s.now) + 1
    ensures Get(s1.store, TokensKey(a.day), s1.now) == Get(s.store, TokensKey(a.day), s.now) + a.tokens
  {
    assert s.requests[first] == Request(a, sentAt, InFlight, Waiting);
    assert Accepts(s.store, a, budget, s.now);
    hide Accepts, Charged, Total, Get;
    s1 := Next(s, Execute(first), budget, lag);
    forall key ensures Grown(s, s1, key, a, 1) {
      GrownOnce(s, first, budget, lag, key);
    }
    assert Grown(s, s1, MinuteKey(0, a.minute), a, 1) && Grown(s, s1, DayKey(0, a.day), a, 1) && Grown(s, s1, TokensKey(a.day), a, 1);
  }

  lemma GrownOnce(s: State, id: nat, budget: nat, lag: nat, key: Key)
    requires Enabled(s, Execute(id), lag) && Accepts(s.store, s.requests[id].ask, budget, s.now)
    ensures Grown(s, Next(s, Execute(id), budget, lag), key, s.requests[id].ask, 1)
  {
    ExecutedKey(s, id, budget, lag, key);
    hide Next, Accepts, Enabled, Total;
  }

  lemma Later(s: State, millis: nat, budget: nat, lag: nat)
    ensures Runs(s, [Tick(millis)], budget, lag) && Run(s, [Tick(millis)], budget, lag) == s.(now := s.now + millis)
  {
  }

  /** Some requests are sent, and time passes. */
  lemma SendThenWait(s: State, first: nat, n: nat, tokens: nat, millis: nat, budget: nat, lag: nat) returns (steps: seq<Step>)
    requires Unused(s, first)
    ensures Runs(s, steps, budget, lag)
    ensures var s' := Run(s, steps, budget, lag);
      && s'.now == s.now + millis && s'.store == s.store && s'.log == s.log && Unused(s', first + n)
      && Wait(s', first, first + n, AskAt(0, tokens, s.now), s.now)
      && forall id :: id in s.requests ==> id in s'.requests && s'.requests[id] == s.requests[id]
  {
    var sent := SendMany(s, first, n, tokens, budget, lag);
    var s1 := Run(s, sent, budget, lag);
    Later(s1, millis, budget, lag);
    RunsJoin(s, sent, [Tick(millis)], budget, lag);
    hide Runs, Run, AskAt;
    steps := sent + [Tick(millis)];
  }

  /** At time zero some requests are sent and their scripts run; then time passes. */
  lemma EarlyThenWait(n: nat, tokens: nat, millis: nat, budget: nat, lag: nat) returns (steps: seq<Step>)
    requires 0 < n <= 3 && n * tokens <= budget
    ensures Runs(START, steps, budget, lag)
    ensures var s, a := Run(START, steps, budget, lag), AskAt(0, tokens, 0);
      && s.now == millis && Unused(s, 1 + n)
      && (forall key :: Total(s.log, key) == n * Adds(key, a))
      && (forall key :: if Touches(key, a) then key in s.store && s.store[key].expires == (if key.MinuteKey? then MINUTE_TTL else DAY_TTL)
                        else key !in s.store)
  {
    var a := AskAt(0, tokens, 0);
    var sent := SendMany(START, 1, n, tokens, budget, lag);
    var s1 := Run(START, sent, budget, lag);
    hide Runs, Run, AskAt;
    var ran := ExecuteMany(s1, 1, n, a, 0, budget, lag);
    RunsJoin(START, sent, ran, budget, lag);
    var s2 := Run(START, sent + ran, budget, lag);
    Later(s2, millis, budget, lag);
    RunsJoin(START, sent + ran, [Tick(millis)], budget, lag);
    forall key ensures Total(s2.log, key) == n * Adds(key, a) && (key in s2.store <==> Touches(key, a)) &&
      (Touches(key, a) ==> s2.store[key].expires == if key.MinuteKey? then MINUTE_TTL else DAY_TTL) {
      assert Grown(s1, s2, key, a, n);
    }
    steps := sent + ran + [Tick(millis)];
  }

  /** With a lag of more than a day the counter of the tokens can expire before the last script of the day. */
  lemma LongerLagBreaksTheBudget(budget: nat, lag: nat) returns (steps: seq<Step>)
    requires lag > DAY && budget >= 1
    ensures Runs(START, steps, budget, lag)
    ensures Total(Run(START, steps, budget, lag).log, TokensKey(0)) == budget + 1
  {
    var key, late := TokensKey(0), AskAt(0, 1, DAY - 1);
    var early := EarlyThenWait(1, budget, DAY - 1, budget, lag);
    var s1 := Run(START, early, budget, lag);
    var sent := SendThenWait(s1, 2, 1, 1, DAY + 1, budget, lag);
    RunsJoin(START, early, sent, budget, lag);
    var s2 := Run(START, early + sent, budget, lag);
    var ran := ExecuteMany(s2, 2, 1, late, DAY - 1, budget, lag);
    RunsJoin(START, early + sent, ran, budget, lag);
    hide Runs, Run, Total;
    steps := early + sent + ran;
    assert Grown(s2, Run(START, steps, budget, lag), key, late, 1);
  }

  /** With a lag of more than a day and two minutes so can the day's counter of one account, before enough
      scripts to exceed the limit of ten. */
  lemma LongerLagBreaksTheDay(budget: nat, lag: nat) returns (steps: seq<Step>)
    requires lag > LAG && budget >= 11
    ensures Runs(START, steps, budget, lag)
    ensures Total(Run(START, steps, budget, lag).log, DayKey(0, 0)) == 11
  {
    var t := DAY - 2 * MINUTE;
    var early := EarlyThenWait(3, 1, t - 1, budget, lag);
    var s1 := Run(START, early, budget, lag);
    var sent := SendLate(s1, budget, lag);
    RunsJoin(START, early, sent, budget, lag);
    var s2 := Run(START, early + sent, budget, lag);
    var ran := ExecuteLate(s2, budget, lag);
    RunsJoin(START, early + sent, ran, budget, lag);
    hide Runs, Run, Total;
    steps := early + sent + ran;
  }

  /** Three requests in each of two of the last minutes of the day, and two in the last, none of them run
      within the day. */
  ghost predicate LateOnes(s: State) {
    var t := DAY - 2 * MINUTE;
    && Wait(s, 4, 7, AskAt(0, 1, t - 1), t - 1) && Wait(s, 7, 10, AskAt(0, 1, t), t) && Wait(s, 10, 12, AskAt(0, 1, t + MINUTE), t + MINUTE)
  }

  lemma SendLate(s: State, budget: nat, lag: nat) returns (steps: seq<Step>)
    requires s.now == DAY - 2 * MINUTE - 1 && Unused(s, 4)
    ensures Runs(s, steps, budget, lag)
    ensures var s' := Run(s, steps, budget, lag);
      s'.now == 2 * DAY && s'.store == s.store && s'.log == s.log && LateOnes(s')
  {
    var a := SendThenWait(s, 4, 3, 1, 1, budget, lag);
    var s1 := Run(s, a, budget, lag);
    var b := SendThenWait(s1, 7, 3, 1, MINUTE, budget, lag);
    var s2 := Run(s1, b, budget, lag);
    var c := SendThenWait(s2, 10, 2, 1, DAY + MINUTE, budget, lag);
    RunsJoin(s, a, b, budget, lag);
    RunsJoin(s, a + b, c, budget, lag);
    hide Runs, Run, AskAt;
    steps := a + b + c;
  }

  lemma LateAsks()
    ensures var t := DAY - 2 * MINUTE;
      && AskAt(0, 1, t - 1) == Ask(0, 1437, 0, 1) && AskAt(0, 1, t) == Ask(0, 1438, 0, 1) && AskAt(0, 1, t + MINUTE) == Ask(0, 1439, 0, 1)
  {
  }

  lemma ExecuteLate(s: State, budget: nat, lag: nat) returns (steps: seq<Step>)
    requires s.now == 2 * DAY && LateOnes(s) && lag > LAG && budget >= 11
    requires forall j :: 1437 <= j <= 1439 ==> MinuteKey(0, j) !in s.store
    requires Get(s.store, DayKey(0, 0), s.now) == 0 == Get(s.store, TokensKey(0), s.now)
    ensures Runs(s, steps, budget, lag)
    ensures Total(Run(s, steps, budget, lag).log, DayKey(0, 0)) == Total(s.log, DayKey(0, 0)) + 8
  {
    LateAsks();
    hide AskAt;
    var t := DAY - 2 * MINUTE;
    var p, q, r := Ask(0, 1437, 0, 1), Ask(0, 1438, 0, 1), Ask(0, 1439, 0, 1);
    var a := ExecuteMany(s, 4, 3, p, t - 1, budget, lag);
    var s1 := Run(s, a, budget, lag);
    assert Grown(s, s1, DayKey(0, 0), p, 3) && Grown(s, s1, TokensKey(0), p, 3)
        && Grown(s, s1, MinuteKey(0, 1438), p, 3) && Grown(s, s1, MinuteKey(0, 1439), p, 3);
    var b := ExecuteMany(s1, 7, 3, q, t, budget, lag);
    var s2 := Run(s1, b, budget, lag);
    assert Grown(s1, s2, DayKey(0, 0), q, 3) && Grown(s1, s2, TokensKey(0), q, 3) && Grown(s1, s2, MinuteKey(0, 1439), q, 3);
    var c := ExecuteMany(s2, 10, 2, r, t + MINUTE, budget, lag);
    assert Grown(s2, Run(s2, c, budget, lag), DayKey(0, 0), r, 2);
    RunsJoin(s, a, b, budget, lag);
    RunsJoin(s, a + b, c, budget, lag);
    hide Runs, Run, Total;
    steps := a + b + c;
  }
}
