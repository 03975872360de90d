/** The failure counter of server/core/rate_limiter.h. The reference keeps every
    failure time and never forgets; the limiter erases expired entries whenever it
    likes and still gives the same answers. */
module RateLimiter {
  import opened Wrappers

  type Key = string
  type Time = int

  /** kPurgeInterval. */
  const PURGE_INTERVAL := 1024

  datatype Entry = Entry(start: Time, count: int)

  type Entries = map<Key, Entry>

  // ------------------------------------------------- the limiter as a value

  datatype Config = Config(max: int, window: Time, maxEntries: nat)

  datatype State = State(entries: Entries, writes: nat)

  predicate Expired(e: Entry, now: Time, window: Time) {
    now - e.start >= window
  }

  predicate Allowed(es: Entries, key: Key, now: Time, cfg: Config) {
    key in es && !Expired(es[key], now, cfg.window) ==> es[key].count < cfg.max
  }

  /** Allow erases an expired entry it meets. */
  function AfterAllow(es: Entries, key: Key, now: Time, cfg: Config): Entries {
    if key in es && Expired(es[key], now, cfg.window) then es - {key} else es
  }

  function Unexpired(es: Entries, now: Time, cfg: Config): Entries {
    map k | k in es && !Expired(es[k], now, cfg.window) :: es[k]
  }

  predicate PurgeDue(s: State, cfg: Config) {
    s.writes + 1 >= PURGE_INTERVAL || |s.entries| >= cfg.maxEntries
  }

  function AfterPurge(s: State, now: Time, cfg: Config): State {
    if PurgeDue(s, cfg) then State(Unexpired(s.entries, now, cfg), 0) else s.(writes := s.writes + 1)
  }

  function Counted(es: Entries, key: Key, now: Time, cfg: Config): Entries {
    if key !in es || es[key].count == 0 || Expired(es[key], now, cfg.window) then es[key := Entry(now, 1)]
    else es[key := es[key].(count := es[key].count + 1)]
  }

  function AfterFailure(s: State, key: Key, now: Time, cfg: Config): State {
    var p := AfterPurge(s, now, cfg);
    p.(entries := Counted(p.entries, key, now, cfg))
  }

  class Limiter {
    const cfg: Config
    var entries: Entries
    var writes: nat

    function Value(): State
      reads this
    {
      State(entries, writes)
    }

    constructor (max: int, window: Time, maxEntries: nat)
      ensures cfg == Config(max, window, maxEntries) && Value() == State(map[], 0)
    {
      cfg := Config(max, window, maxEntries);
      entries, writes := map[], 0;
    }

    method Allow(key: Key, now: Time) returns (ok: bool)
      modifies this`entries
      ensures ok <==> Allowed(old(entries), key, now, cfg)
      ensures Value() == State(AfterAllow(old(entries), key, now, cfg), old(writes))
    {
      if key !in entries {
        return true;
      }
      var e := entries[key];
      if now - e.start >= cfg.window {
        entries := entries - {key};
        return true;
      }
      return e.count < cfg.max;
    }

    /** The loop erases while it iterates, in whatever order the table gives. */
    method MaybePurge(now: Time)
      modifies this
      ensures Value() == AfterPurge(old(Value()), now, cfg)
    {
      writes := writes + 1;
      if writes < PURGE_INTERVAL && |entries| < cfg.maxEntries {
        return;
      }
      writes := 0;
      ghost var was := entries;
      var rest := entries.Keys;
      while rest != {}
        invariant rest <= entries.Keys <= was.Keys
        invariant writes == 0
        invariant forall k :: k in entries ==> entries[k] == was[k]
        invariant forall k :: k in was && k !in rest ==> (k in entries <==> !Expired(was[k], now, cfg.window))
        decreases rest
      {
        var k :| k in rest;
        rest := rest - {k};
        if now - entries[k].start >= cfg.window {
          entries := entries - {k};
        }
      }
      assert entries == Unexpired(was, now, cfg);
    }

    method RecordFailure(key: Key, now: Time)
      modifies this
      ensures Value() == AfterFailure(old(Value()), key, now, cfg)
    {
      MaybePurge(now);
      if key !in entries || entries[key].count == 0 || now - entries[key].start >= cfg.window {
        entries := entries[key := Entry(now, 1)];
      } else {
        entries := entries[key := entries[key].(count := entries[key].count + 1)];
      }
    }

    method Reset(key: Key)
      modifies this`entries
      ensures Value() == State(old(entries) - {key}, old(writes))
    {
      entries := entries - {key};
    }
  }

  // --------------------------------------------------------------- traces

  datatype Kind = Ask | Fail | Clear

  datatype Op = Op(kind: Kind, key: Key, at: Time)

  function Apply(s: State, op: Op, cfg: Config): State {
    match op.kind
    case Ask => s.(entries := AfterAllow(s.entries, op.key, op.at, cfg))
    case Fail => AfterFailure(s, op.key, op.at, cfg)
    case Clear => s.(entries := s.entries - {op.key})
  }

  /** The limiter after a trace. */
  function After(ops: seq<Op>, cfg: Config): State {
    if ops == [] then State(map[], 0)
    else Apply(After(ops[..|ops| - 1], cfg), ops[|ops| - 1], cfg)
  }

  predicate Monotone(ops: seq<Op>) {
    forall i, j :: 0 <= i <= j < |ops| ==> ops[i].at <= ops[j].at
  }

  // ----------------------------------------- the reference: all failure times

  /** The times of the key's failures since its last reset. */
  function Failures(ops: seq<Op>, key: Key): seq<Time> {
    if ops == [] then []
    else
      var op, rest := ops[|ops| - 1], Failures(ops[..|ops| - 1], key);
      if op.key != key || op.kind == Ask then rest
      else if op.kind == Clear then []
      else rest + [op.at]
  }

  /** Windows open at a failure and last `window`; the last one and the failures
      it holds. */
  function Last(ts: seq<Time>, window: Time): Option<Entry> {
    if ts == [] then None
    else
      var t := ts[|ts| - 1];
      match Last(ts[..|ts| - 1], window)
      case None => Some(Entry(t, 1))
      case Some(e) => if Expired(e, t, window) then Some(Entry(t, 1)) else Some(Entry(e.start, e.count + 1))
  }

  predicate ReferenceAllows(ts: seq<Time>, now: Time, cfg: Config) {
    match Last(ts, cfg.window)
    case None => true
    case Some(e) => Expired(e, now, cfg.window) || e.count < cfg.max
  }

  /** An entry is the key's last window; a missing one has expired by `now`. */
  predicate Tracks(es: Entries, key: Key, last: Option<Entry>, now: Time, window: Time) {
    if key in es then last == Some(es[key]) && es[key].count >= 1
    else last.Some? ==> Expired(last.value, now, window)
  }

  lemma LastAppend(ts: seq<Time>, t: Time, window: Time)
    ensures Last(ts + [t], window) ==
      match Last(ts, window)
      case None => Some(Entry(t, 1))
      case Some(e) => if Expired(e, t, window) then Some(Entry(t, 1)) else Some(Entry(e.start, e.count + 1))
  {
    assert (ts + [t])[..|ts|] == ts;
  }

  lemma TracksStep(s: State, op: Op, key: Key, ts: seq<Time>, before: Time, cfg: Config)
    requires Tracks(s.entries, key, Last(ts, cfg.window), before, cfg.window) && before <= op.at
    ensures var next := if op.key != key || op.kind == Ask then ts else if op.kind == Clear then [] else ts + [op.at];
      Tracks(Apply(s, op, cfg).entries, key, Last(next, cfg.window), op.at, cfg.window)
  {
    hide Last, Apply, AfterFailure, AfterAllow, Counted;
    LastAppend(ts, op.at, cfg.window);
    match op.kind
    case Ask => AskTracks(s, op, key, Last(ts, cfg.window), before, cfg);
    case Clear => ClearTracks(s, op, key, ts, before, cfg);
    case Fail =>
      PurgeTracks(s, key, Last(ts, cfg.window), before, op.at, cfg);
      CountTracks(AfterPurge(s, op.at, cfg).entries, op.key, key, ts, op.at, cfg);
      FailIsCounted(s, op, cfg);
  }

  lemma AskTracks(s: State, op: Op, key: Key, last: Option<Entry>, before: Time, cfg: Config)
    requires op.kind == Ask && Tracks(s.entries, key, last, before, cfg.window) && before <= op.at
    ensures Tracks(Apply(s, op, cfg).entries, key, last, op.at, cfg.window)
  {
  }

  lemma ClearTracks(s: State, op: Op, key: Key, ts: seq<Time>, before: Time, cfg: Config)
    requires op.kind == Clear && Tracks(s.entries, key, Last(ts, cfg.window), before, cfg.window) && before <= op.at
    ensures Tracks(Apply(s, op, cfg).entries, key, Last(if op.key == key then [] else ts, cfg.window), op.at, cfg.window)
  {
  }

  lemma PurgeTracks(s: State, key: Key, last: Option<Entry>, before: Time, now: Time, cfg: Config)
    requires Tracks(s.entries, key, last, before, cfg.window) && before <= now
    ensures Tracks(AfterPurge(s, now, cfg).entries, key, last, now, cfg.window)
  {
  }

  lemma FailIsCounted(s: State, op: Op, cfg: Config)
    requires op.kind == Fail
    ensures Apply(s, op, cfg).entries == Counted(AfterPurge(s, op.at, cfg).entries, op.key, op.at, cfg)
  {
  }

  lemma CountTracks(es: Entries, k: Key, key: Key, ts: seq<Time>, now: Time, cfg: Config)
    requires Tracks(es, key, Last(ts, cfg.window), now, cfg.window)
    ensures Tracks(Counted(es, k, now, cfg), key, Last(if k == key then ts + [now] else ts, cfg.window), now, cfg.window)
  {
    LastAppend(ts, now, cfg.window);
    hide Last;
  }

  lemma {:induction false} TracksReference(ops: seq<Op>, cfg: Config, key: Key, now: Time)
    requires Monotone(ops) && (ops != [] ==> ops[|ops| - 1].at <= now)
    ensures Tracks(After(ops, cfg).entries, key, Last(Failures(ops, key), cfg.window), now, cfg.window)
  {
    if ops != [] {
      var before, op := ops[..|ops| - 1], ops[|ops| - 1];
      TracksReference(before, cfg, key, op.at);
      TracksStep(After(before, cfg), op, key, Failures(before, key), op.at, cfg);
    }
  }

  /** Whatever Allow and MaybePurge have erased, the next answer is the one of a
      limiter that remembers every failure. */
  lemma AnswersAsReference(ops: seq<Op>, cfg: Config, key: Key, now: Time)
    requires Monotone(ops) && (ops != [] ==> ops[|ops| - 1].at <= now)
    ensures Allowed(After(ops, cfg).entries, key, now, cfg) <==> ReferenceAllows(Failures(ops, key), now, cfg)
  {
    TracksReference(ops, cfg, key, now);
  }

  // ---------------------------------------------------------- rate bounds

  predicate Sorted(ts: seq<Time>) {
    forall i, j :: 0 <= i <= j < |ts| ==> ts[i] <= ts[j]
  }

  /** Every failure happened when the reference allowed it. */
  predicate Disciplined(ts: seq<Time>, cfg: Config) {
    forall i :: 0 <= i < |ts| ==> ReferenceAllows(ts[..i], ts[i], cfg)
  }

  /** How many of the times lie in [from, from + length). */
  function CountIn(ts: seq<Time>, from: Time, length: Time): nat {
    if ts == [] then 0
    else
      CountIn(ts[..|ts| - 1], from, length)
      + if from <= ts[|ts| - 1] < from + length then 1 else 0
  }

  lemma {:induction false} NoneIn(ts: seq<Time>, from: Time, length: Time)
    requires forall i :: 0 <= i < |ts| ==> ts[i] < from
    ensures CountIn(ts, from, length) == 0
  {
    if ts != [] {
      NoneIn(ts[..|ts| - 1], from, length);
    }
  }

  lemma DisciplinedFront(ts: seq<Time>, cfg: Config)
    requires Disciplined(ts, cfg) && Sorted(ts) && ts != []
    ensures Disciplined(ts[..|ts| - 1], cfg) && Sorted(ts[..|ts| - 1])
    ensures ReferenceAllows(ts[..|ts| - 1], ts[|ts| - 1], cfg)
  {
    var n := |ts| - 1;
    forall i | 0 <= i < n ensures ReferenceAllows(ts[..n][..i], ts[..n][i], cfg) {
      assert ts[..n][..i] == ts[..i];
    }
  }

  /** The last window holds exactly the failures inside it, and no failure is
      later. */
  lemma {:induction false} WindowCounts(ts: seq<Time>, window: Time)
    requires Sorted(ts) && ts != [] && window > 0
    ensures var e := Last(ts, window).value;
      && e.count == CountIn(ts, e.start, window)
      && e.start <= ts[|ts| - 1] < e.start + window
  {
    var n := |ts| - 1;
    if n == 0 {
      assert ts[..0] == [];
    } else {
      WindowCounts(ts[..n], window);
      var e := Last(ts[..n], window).value;
      if Expired(e, ts[n], window) {
        NoneIn(ts[..n], ts[n], window);
      }
    }
  }

  /** At most `max` failures in a window. */
  lemma {:induction false} WindowBound(ts: seq<Time>, cfg: Config)
    requires Sorted(ts) && Disciplined(ts, cfg) && cfg.max >= 1
    ensures Last(ts, cfg.window).Some? ==> 1 <= Last(ts, cfg.window).value.count <= cfg.max
  {
    if ts != [] {
      DisciplinedFront(ts, cfg);
      WindowBound(ts[..|ts| - 1], cfg);
    }
  }

  lemma {:induction false} StartsBefore(ts: seq<Time>, window: Time)
    requires Sorted(ts) && ts != []
    ensures Last(ts, window).value.start <= ts[|ts| - 1]
  {
    if |ts| > 1 {
      StartsBefore(ts[..|ts| - 1], window);
    }
  }

  /** What an interval has collected, by where the last window started. */
  predicate Collected(n: nat, last: Option<Entry>, from: Time, cfg: Config) {
    match last
    case None => n == 0
    case Some(e) =>
      if e.start < from then n <= e.count - 1
      else if e.start < from + cfg.window then n <= cfg.max - 1 + e.count
      else n <= 2 * cfg.max - 1
  }

  lemma {:induction false} IntervalCollects(ts: seq<Time>, cfg: Config, from: Time)
    requires Sorted(ts) && Disciplined(ts, cfg) && cfg.max >= 1
    ensures Collected(CountIn(ts, from, cfg.window), Last(ts, cfg.window), from, cfg)
  {
    if ts != [] {
      var n := |ts| - 1;
      DisciplinedFront(ts, cfg);
      IntervalCollects(ts[..n], cfg, from);
      WindowBound(ts[..n], cfg);
      StartsBefore(ts, cfg.window);
      if ts[n] < from {
        NoneIn(ts, from, cfg.window);
        WindowBound(ts, cfg);
      }
    }
  }

  /** At most 2 * max - 1 failures in any half-open interval of window length. */
  lemma IntervalBound(ts: seq<Time>, cfg: Config, from: Time)
    requires Sorted(ts) && Disciplined(ts, cfg) && cfg.max >= 1
    ensures CountIn(ts, from, cfg.window) <= 2 * cfg.max - 1
  {
    IntervalCollects(ts, cfg, from);
    WindowBound(ts, cfg);
  }

  /** One failure at 0, then `a` of them just before the window ends, then `b` as it
      does. */
  function Burst(window: Time, a: nat, b: nat): seq<Time>
    decreases b, a
  {
    if b > 0 then Burst(window, a, b - 1) + [window]
    else if a > 0 then Burst(window, a - 1, 0) + [window - 1]
    else [0]
  }

  lemma OneMore(ts: seq<Time>, t: Time, cfg: Config, from: Time)
    requires Sorted(ts) && Disciplined(ts, cfg) && ReferenceAllows(ts, t, cfg)
    requires ts != [] ==> ts[|ts| - 1] <= t
    ensures Sorted(ts + [t]) && Disciplined(ts + [t], cfg)
    ensures CountIn(ts + [t], from, cfg.window) ==
      CountIn(ts, from, cfg.window) + if from <= t < from + cfg.window then 1 else 0
  {
    hide ReferenceAllows;
    assert (ts + [t])[..|ts|] == ts;
    forall i | 0 <= i < |ts| + 1 ensures ReferenceAllows((ts + [t])[..i], (ts + [t])[i], cfg) {
      assert (ts + [t])[..i] == ts[..i];
      assert ts[..|ts|] == ts;
    }
  }

  lemma {:induction false} BurstCounts(cfg: Config, a: nat, b: nat)
    requires cfg.max >= 1 && cfg.window >= 2
    requires a <= cfg.max - 1 && b <= cfg.max && (b > 0 ==> a == cfg.max - 1)
    ensures var ts := Burst(cfg.window, a, b);
      && Sorted(ts) && Disciplined(ts, cfg) && CountIn(ts, 1, cfg.window) == a + b
      && ts != [] && ts[|ts| - 1] == (if b > 0 then cfg.window else if a > 0 then cfg.window - 1 else 0)
      && Last(ts, cfg.window) == Some(if b > 0 then Entry(cfg.window, b) else Entry(0, 1 + a))
    decreases b, a
  {
    hide Disciplined, Sorted, Last, CountIn;
    if a == 0 && b == 0 {
      FirstFailure(cfg);
    } else {
      var before, t := if b > 0 then Burst(cfg.window, a, b - 1) else Burst(cfg.window, a - 1, 0),
                       if b > 0 then cfg.window else cfg.window - 1;
      if b > 0 {
        BurstCounts(cfg, a, b - 1);
      } else {
        BurstCounts(cfg, a - 1, 0);
      }
      LastAppend(before, t, cfg.window);
      OneMore(before, t, cfg, 1);
    }
  }

  lemma FirstFailure(cfg: Config)
    requires cfg.window >= 2
    ensures Sorted([0]) && Disciplined([0], cfg) && CountIn([0], 1, cfg.window) == 0
    ensures Last([0], cfg.window) == Some(Entry(0, 1))
  {
    assert [0][..0] == [];
  }

  /** The bound is reached in every configuration. */
  lemma IntervalBoundIsTight(cfg: Config)
    requires cfg.max >= 1 && cfg.window >= 2
    ensures exists ts, from ::
      Sorted(ts) && Disciplined(ts, cfg) && CountIn(ts, from, cfg.window) == 2 * cfg.max - 1
  {
    BurstCounts(cfg, cfg.max - 1, cfg.max);
    assert CountIn(Burst(cfg.window, cfg.max - 1, cfg.max), 1, cfg.window) == 2 * cfg.max - 1;
  }

  // -------------------------------------------------------- guarded traces

  /** As in HandleLogin, the failure at `i` follows an Allow of the key that said
      yes, with no other operation on the key in between. */
  predicate GuardedAt(ops: seq<Op>, cfg: Config, key: Key, i: nat)
    requires i < |ops|
  {
    exists j :: 0 <= j < i && ops[j].kind == Ask && ops[j].key == key
      && Allowed(After(ops[..j], cfg).entries, key, ops[j].at, cfg)
      && forall k :: j < k < i ==> ops[k].key != key
  }

  predicate Guarded(ops: seq<Op>, cfg: Config, key: Key) {
    && (forall i :: 0 <= i < |ops| && ops[i].key == key && ops[i].kind == Fail ==> GuardedAt(ops, cfg, key, i))
    && (forall i :: 0 <= i < |ops| && ops[i].key == key ==> ops[i].kind != Clear)
  }

  lemma {:induction false} FailuresSame(ops: seq<Op>, key: Key, j: nat, i: nat)
    requires j <= i <= |ops|
    requires forall k :: j <= k < i ==> ops[k].key != key || ops[k].kind == Ask
    ensures Failures(ops[..i], key) == Failures(ops[..j], key)
    decreases i - j
  {
    if j < i {
      FailuresSame(ops, key, j, i - 1);
      assert ops[..i][..i - 1] == ops[..i - 1];
    }
  }

  /** The guard means the reference allows the failure at its own time too. */
  lemma GuardAllows(ops: seq<Op>, cfg: Config, key: Key, i: nat)
    requires Monotone(ops) && i < |ops| && GuardedAt(ops, cfg, key, i)
    ensures ReferenceAllows(Failures(ops[..i], key), ops[i].at, cfg)
  {
    var j :| 0 <= j < i && ops[j].kind == Ask && ops[j].key == key
      && Allowed(After(ops[..j], cfg).entries, key, ops[j].at, cfg)
      && forall k :: j < k < i ==> ops[k].key != key;
    FailuresSame(ops, key, j, i);
    AnswersAsReference(ops[..j], cfg, key, ops[j].at);
  }

  lemma GuardedFront(ops: seq<Op>, cfg: Config, key: Key)
    requires Guarded(ops, cfg, key) && Monotone(ops) && ops != []
    ensures Guarded(ops[..|ops| - 1], cfg, key) && Monotone(ops[..|ops| - 1])
  {
    var n := |ops| - 1;
    var front := ops[..n];
    forall i | 0 <= i < n && front[i].key == key && front[i].kind == Fail ensures GuardedAt(front, cfg, key, i) {
      assert GuardedAt(ops, cfg, key, i);
      var j :| 0 <= j < i && ops[j].kind == Ask && ops[j].key == key
        && Allowed(After(ops[..j], cfg).entries, key, ops[j].at, cfg)
        && forall k :: j < k < i ==> ops[k].key != key;
      assert front[..j] == ops[..j] && front[j] == ops[j];
    }
  }

  lemma NoFailures(cfg: Config)
    ensures Disciplined([], cfg) && Sorted([])
  {
  }

  lemma GuardedHere(ops: seq<Op>, cfg: Config, key: Key, i: nat)
    requires Guarded(ops, cfg, key) && i < |ops| && ops[i].key == key
    ensures ops[i].kind != Clear && (ops[i].kind == Fail ==> GuardedAt(ops, cfg, key, i))
  {
  }

  lemma {:induction false} GuardedIsDisciplined(ops: seq<Op>, cfg: Config, key: Key)
    requires Monotone(ops) && Guarded(ops, cfg, key)
    ensures var ts := Failures(ops, key);
      && Disciplined(ts, cfg) && Sorted(ts)
      && (ts != [] ==> ts[|ts| - 1] <= ops[|ops| - 1].at)
  {
    hide Disciplined, Sorted, CountIn, ReferenceAllows, Guarded, GuardedAt;
    if ops == [] {
      NoFailures(cfg);
    } else {
      var n := |ops| - 1;
      var before := Failures(ops[..n], key);
      GuardedFront(ops, cfg, key);
      GuardedIsDisciplined(ops[..n], cfg, key);
      if ops[n].key == key {
        GuardedHere(ops, cfg, key, n);
      }
      if ops[n].key == key && ops[n].kind == Fail {
        GuardAllows(ops, cfg, key, n);
        OneMore(before, ops[n].at, cfg, 0);
      }
    }
  }

  /** The rate bound over whole traces of any keys: without a reset of `key`, at
      most `max` failures of it fall in one window and at most 2 * max - 1 in any
      half-open interval of window length. */
  lemma RateBound(ops: seq<Op>, cfg: Config, key: Key, from: Time)
    requires Monotone(ops) && Guarded(ops, cfg, key) && cfg.max >= 1
    ensures var ts := Failures(ops, key);
      && (Last(ts, cfg.window).Some? ==> Last(ts, cfg.window).value.count <= cfg.max)
      && CountIn(ts, from, cfg.window) <= 2 * cfg.max - 1
  {
    GuardedIsDisciplined(ops, cfg, key);
    WindowBound(Failures(ops, key), cfg);
    IntervalBound(Failures(ops, key), cfg, from);
  }

  // --------------------------------------------------- how long entries stay

  function Fails(ops: seq<Op>): nat {
    if ops == [] then 0 else Fails(ops[..|ops| - 1]) + if ops[|ops| - 1].kind == Fail then 1 else 0
  }

  /** No entry had expired before that time. */
  predicate FreshAt(es: Entries, time: Time, window: Time) {
    forall k :: k in es ==> time < es[k].start + window
  }

  lemma WritesStep(s: State, op: Op, cfg: Config, since: Time)
    requires s.writes < PURGE_INTERVAL && since <= op.at && cfg.window > 0
    ensures var r := Apply(s, op, cfg);
      && r.writes < PURGE_INTERVAL
      && (FreshAt(s.entries, since, cfg.window) ==> FreshAt(r.entries, since, cfg.window))
      && (op.kind != Fail ==> r.writes == s.writes)
      && (op.kind == Fail ==> r.writes == s.writes + 1 || FreshAt(r.entries, op.at, cfg.window))
      && (op.kind == Fail && |s.entries| >= cfg.maxEntries ==> FreshAt(r.entries, op.at, cfg.window))
  {
  }

  lemma {:induction false} PurgedSince(ops: seq<Op>, cfg: Config, i: nat, n: nat)
    requires Monotone(ops) && i <= n <= |ops| && i < |ops| && cfg.window > 0
    ensures var s := After(ops[..n], cfg);
      && s.writes < PURGE_INTERVAL
      && (s.writes >= Fails(ops[i..n]) || FreshAt(s.entries, ops[i].at, cfg.window))
    decreases n
  {
    hide Apply, FreshAt;
    if n == i {
      assert ops[i..n] == [];
      WritesBounded(ops, cfg, n);
    } else {
      PurgedSince(ops, cfg, i, n - 1);
      assert ops[..n][..n - 1] == ops[..n - 1] && ops[i..n][..n - 1 - i] == ops[i..n - 1];
      WritesStep(After(ops[..n - 1], cfg), ops[n - 1], cfg, ops[i].at);
      FreshEarlier(After(ops[..n], cfg).entries, ops[n - 1].at, ops[i].at, cfg.window);
    }
  }

  lemma FreshEarlier(es: Entries, time: Time, before: Time, window: Time)
    requires before <= time
    ensures FreshAt(es, time, window) ==> FreshAt(es, before, window)
  {
  }

  lemma {:induction false} WritesBounded(ops: seq<Op>, cfg: Config, n: nat)
    requires n <= |ops| && cfg.window > 0
    ensures After(ops[..n], cfg).writes < PURGE_INTERVAL
  {
    hide Apply, FreshAt;
    if n > 0 {
      WritesBounded(ops, cfg, n - 1);
      assert ops[..n][..n - 1] == ops[..n - 1];
      WritesStep(After(ops[..n - 1], cfg), ops[n - 1], cfg, ops[n - 1].at);
    }
  }

  /** Expired entries do not stay: once 1024 failures have been recorded since some
      moment, no entry is left that had expired by then; and a failure recorded while
      the table has reached its limit leaves only unexpired entries. */
  lemma ExpiredGo(ops: seq<Op>, cfg: Config, i: nat)
    requires Monotone(ops) && i < |ops| && cfg.window > 0
    ensures Fails(ops[i..]) >= 1024 ==> FreshAt(After(ops, cfg).entries, ops[i].at, cfg.window)
    ensures ops[i].kind == Fail && |After(ops[..i], cfg).entries| >= cfg.maxEntries ==>
              FreshAt(After(ops[..i + 1], cfg).entries, ops[i].at, cfg.window)
  {
    hide FreshAt;
    PurgedSince(ops, cfg, i, |ops|);
    assert ops[..|ops|] == ops && ops[i..|ops|] == ops[i..];
    WritesBounded(ops, cfg, i);
    WritesStep(After(ops[..i], cfg), ops[i], cfg, ops[i].at);
    assert ops[..i + 1][..i] == ops[..i];
  }

  /** Nothing else is forgotten: recording a failure or asking about one key never takes
      the unexpired entry of another. */
  lemma UnexpiredStay(s: State, op: Op, cfg: Config, key: Key)
    requires key != op.key && key in s.entries && !Expired(s.entries[key], op.at, cfg.window)
    ensures var r := Apply(s, op, cfg); key in r.entries && r.entries[key] == s.entries[key]
  {
  }
}
