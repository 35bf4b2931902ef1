/** The in-memory download-task registry of the server: `downloadTasks`, a
    `Map` from task id to task record, `updateDownloadTask`, the ten-minute
    expiry timers, and the task listing. Time is an explicit parameter and
    each `setTimeout` is a pending `(deadline, id)` entry. */
module TaskRegistry {

  import opened Wrappers
  import opened JsText
  import opened JsValue

  /** A task record: the fields of a plain object. */
  type Task = map<string, Value>

  /** `10 * 60 * 1000`: a finished task is dropped ten minutes later. */
  const ExpiryMs: int := 600000

  datatype Timer = Timer(deadline: int, id: string)

  /** The task id `${source}_${id}_${quality}`. */
  function TaskId(source: Value, id: Value, quality: Value): string {
    ToStr(source) + "_" + ToStr(id) + "_" + ToStr(quality)
  }

  /** For string sources and qualities without '_' (the platform names and
      bit rates the routes receive), the key determines all three parts:
      two tasks share a key exactly when they have the same source, the
      same quality and ids that convert to the same string. The id may
      contain '_'. */
  lemma TaskIdInjective(s1: string, i1: Value, q1: string, s2: string, i2: Value, q2: string)
    requires '_' !in s1 && '_' !in s2 && '_' !in q1 && '_' !in q2
    ensures TaskId(Str(s1), i1, Str(q1)) == TaskId(Str(s2), i2, Str(q2)) <==>
              s1 == s2 && ToStr(i1) == ToStr(i2) && q1 == q2
  {
    KeyInjective(s1, ToStr(i1), q1, s2, ToStr(i2), q2);
  }

  /** `a + "_" + b + "_" + c` with no '_' in `a` and `c` gives back its parts. */
  lemma KeyInjective(a1: string, b1: string, c1: string, a2: string, b2: string, c2: string)
    requires '_' !in a1 && '_' !in a2 && '_' !in c1 && '_' !in c2
    ensures a1 + "_" + b1 + "_" + c1 == a2 + "_" + b2 + "_" + c2 <==> a1 == a2 && b1 == b2 && c1 == c2
  {
    if a1 + "_" + b1 + "_" + c1 == a2 + "_" + b2 + "_" + c2 {
      assert a1 + "_" + b1 + "_" + c1 == a1 + ['_'] + (b1 + "_" + c1);
      assert a2 + "_" + b2 + "_" + c2 == a2 + ['_'] + (b2 + "_" + c2);
      SplitAtFirst(a1, b1 + "_" + c1, a2, b2 + "_" + c2, '_');
      SplitAtLast(b1, c1, b2, c2, '_');
    }
  }

  /** Splitting at the first occurrence of a separator. */
  lemma SplitAtFirst(a1: string, b1: string, a2: string, b2: string, c: char)
    requires c !in a1 && c !in a2 && a1 + [c] + b1 == a2 + [c] + b2
    ensures a1 == a2 && b1 == b2
  {
    var x := a1 + [c] + b1;
    assert x == a2 + [c] + b2;
    assert x[|a1|] == c && x[|a2|] == c;
    assert forall k :: 0 <= k < |a1| ==> x[k] == a1[k];
    assert forall k :: 0 <= k < |a2| ==> x[k] == a2[k];
    assert |a1| == |a2|;
    assert a1 == x[..|a1|] == a2;
    assert b1 == x[|a1| + 1..] == b2;
  }

  /** Splitting at the last occurrence of a separator. */
  lemma SplitAtLast(a1: string, b1: string, a2: string, b2: string, c: char)
    requires c !in b1 && c !in b2 && a1 + [c] + b1 == a2 + [c] + b2
    ensures a1 == a2 && b1 == b2
  {
    var x := a1 + [c] + b1;
    assert x == a2 + [c] + b2;
    assert x[|a1|] == c && x[|a2|] == c;
    assert forall k :: |a1| < k < |x| ==> x[k] == b1[k - |a1| - 1];
    assert forall k :: |a2| < k < |x| ==> x[k] == b2[k - |a2| - 1];
    assert |a1| == |a2|;
    assert a1 == x[..|a1|] == a2;
    assert b1 == x[|a1| + 1..] == b2;
  }

  /** Without that restriction keys collide: source "a_b" with id "c" and
      source "a" with id "b_c" share a task. */
  lemma TaskIdCollision(q: Value)
    ensures TaskId(Str("a_b"), Str("c"), q) == TaskId(Str("a"), Str("b_c"), q)
  {
    assert ToStr(Str("a_b")) + "_" + ToStr(Str("c")) == ToStr(Str("a")) + "_" + ToStr(Str("b_c"));
  }

  /** The quality of the url route: `br || '320k'`. */
  function UrlRouteQuality(br: Value): (q: Value)
    ensures Truthy(q)
    ensures Truthy(br) ==> q == br
  {
    Or(br, Str("320k"))
  }

  /** The quality of save-all: the destructuring default, which only
      replaces a missing (undefined) field. */
  function SaveAllQuality(quality: Value): (q: Value)
    ensures !q.Undefined?
    ensures !quality.Undefined? ==> q == quality
  {
    if quality.Undefined? then Str("flac24bit") else quality
  }

  /** The two defaults differ: a song saved by save-all without a quality
      and the same song fetched by the url route without `br` are two
      different tasks. */
  lemma DefaultQualitiesSplitTasks(source: Value, id: Value)
    ensures TaskId(source, id, SaveAllQuality(Undefined)) != TaskId(source, id, UrlRouteQuality(Undefined))
  {
    var k1, k2 := TaskId(source, id, SaveAllQuality(Undefined)), TaskId(source, id, UrlRouteQuality(Undefined));
    assert |k1| != |k2|;
  }

  /** An empty or null quality is kept by save-all, where the url route
      falls back to "320k": the two routes then give different keys. */
  lemma FalsyQualityKeptBySaveAll(q: Value)
    requires !Truthy(q) && !q.Undefined?
    ensures SaveAllQuality(q) == q && UrlRouteQuality(q) == Str("320k")
    ensures ToStr(SaveAllQuality(q)) != ToStr(UrlRouteQuality(q))
  {
  }

  /** `{ ...task, ...data, lastUpdate: Date.now() }`, where `task` is the
      stored record or `{ id, startTime: now }` for a new id. */
  function Merge(existing: Option<Task>, id: string, data: Task, now: int): Task {
    var base := if existing.Some? then existing.value else map["id" := Str(id), "startTime" := Num(now)];
    (base + data)["lastUpdate" := Num(now)]
  }

  /** New fields override old ones, old fields survive, `lastUpdate` is the
      time of the call, a new record gets its id and start time, and no
      other field appears. */
  lemma MergeSpec(existing: Option<Task>, id: string, data: Task, now: int)
    ensures var t := Merge(existing, id, data, now);
      && "lastUpdate" in t && t["lastUpdate"] == Num(now)
      && (forall k :: k in data && k != "lastUpdate" ==> k in t && t[k] == data[k])
      && (existing.Some? ==>
            (forall k :: k in existing.value && k !in data && k != "lastUpdate" ==> k in t && t[k] == existing.value[k]))
      && (existing.None? && "startTime" !in data ==> "startTime" in t && t["startTime"] == Num(now))
      && (existing.None? && "id" !in data ==> "id" in t && t["id"] == Str(id))
      && (forall k :: k in t ==>
            (k == "lastUpdate" || k in data || (existing.Some? && k in existing.value) || (existing.None? && k in {"id", "startTime"})))
  {
  }

  /** A field the update carries is stored as given. */
  lemma MergeKeeps(existing: Option<Task>, id: string, data: Task, now: int, k: string)
    requires k in data && k != "lastUpdate"
    ensures k in Merge(existing, id, data, now) && Merge(existing, id, data, now)[k] == data[k]
  {
  }

  /** `data.status === 'completed' || data.status === 'failed'`. */
  predicate Terminal(data: Task) {
    "status" in data && (data["status"] == Str("completed") || data["status"] == Str("failed"))
  }

  /** The registry: the map's records, its key order (a `Map` iterates in
      insertion order; overwriting keeps a key's place, deleting forgets
      it), and the pending expiry timers in the order they were set. */
  datatype State = State(tasks: map<string, Task>, order: seq<string>, timers: seq<Timer>)

  ghost predicate Distinct(s: seq<string>) {
    forall i, j :: 0 <= i < j < |s| ==> s[i] != s[j]
  }

  ghost predicate Consistent(s: State) {
    Distinct(s.order) && forall id :: id in s.tasks <==> id in s.order
  }

  const Empty: State := State(map[], [], [])

  /** `updateDownloadTask(id, data)` at time `now`. */
  function Upsert(s: State, id: string, data: Task, now: int): State {
    var existing := if id in s.tasks then Some(s.tasks[id]) else None;
    State(s.tasks[id := Merge(existing, id, data, now)],
          if id in s.tasks then s.order else s.order + [id],
          s.timers + (if Terminal(data) then [Timer(now + ExpiryMs, id)] else []))
  }

  /** The ids whose timers are due at `now`. */
  function Due(timers: seq<Timer>, now: int): set<string> {
    set t | t in timers && t.deadline <= now :: t.id
  }

  function StillPending(timers: seq<Timer>, now: int): seq<Timer> {
    if timers == [] then []
    else StillPending(timers[..|timers| - 1], now)
         + (if timers[|timers| - 1].deadline > now then [timers[|timers| - 1]] else [])
  }

  /** The timers kept are exactly those not yet due, in the order set. */
  lemma {:induction false} StillPendingSpec(timers: seq<Timer>, now: int)
    ensures forall t :: t in StillPending(timers, now) <==> t in timers && t.deadline > now
    decreases |timers|
  {
    if timers != [] {
      var init := timers[..|timers| - 1];
      StillPendingSpec(init, now);
      assert timers == init + [timers[|timers| - 1]];
    }
  }

  /** The order with the given ids taken out. */
  function Without(order: seq<string>, gone: set<string>): (r: seq<string>)
    ensures forall id :: id in r <==> id in order && id !in gone
    ensures |r| <= |order|
  {
    if order == [] then []
    else Without(order[..|order| - 1], gone)
         + (if order[|order| - 1] in gone then [] else [order[|order| - 1]])
  }

  /** Every timer due at `now` fires: `downloadTasks.delete(id)`, whatever
      happened to the task since the timer was set. */
  function Expire(s: State, now: int): State {
    var gone := Due(s.timers, now);
    State(s.tasks - gone, Without(s.order, gone), StillPending(s.timers, now))
  }

  /** `Array.from(downloadTasks.values())`. */
  function Values(s: State): seq<Task>
    requires Consistent(s)
  {
    seq(|s.order|, i requires 0 <= i < |s.order| => s.tasks[s.order[i]])
  }

  // ----- properties -----

  lemma {:induction false} WithoutDistinct(order: seq<string>, gone: set<string>)
    requires Distinct(order)
    ensures Distinct(Without(order, gone))
    decreases |order|
  {
    if order != [] {
      var init := order[..|order| - 1];
      assert Distinct(init);
      WithoutDistinct(init, gone);
    }
  }

  lemma UpsertConsistent(s: State, id: string, data: Task, now: int)
    requires Consistent(s)
    ensures Consistent(Upsert(s, id, data, now))
  {
  }

  lemma ExpireConsistent(s: State, now: int)
    requires Consistent(s)
    ensures Consistent(Expire(s, now))
  {
    WithoutDistinct(s.order, Due(s.timers, now));
  }

  /** A new id is stamped with `startTime = now`; an existing task keeps its
      start time unless the update carries one; `lastUpdate` is always now;
      no other task changes and a new id goes last in the listing. */
  lemma UpsertStamps(s: State, id: string, data: Task, now: int)
    requires "startTime" !in data
    ensures var s' := Upsert(s, id, data, now);
      && id in s'.tasks && s'.tasks[id]["lastUpdate"] == Num(now)
      && (id !in s.tasks ==> s'.tasks[id]["startTime"] == Num(now) && s'.order == s.order + [id])
      && (id in s.tasks && "startTime" in s.tasks[id] ==> s'.tasks[id]["startTime"] == s.tasks[id]["startTime"])
      && (id in s.tasks ==> s'.order == s.order)
      && (forall other :: other in s.tasks && other != id ==> other in s'.tasks && s'.tasks[other] == s.tasks[other])
  {
  }

  /** An expiry is scheduled, ten minutes on, exactly when the update sets
      a terminal status; progress-only updates schedule nothing. */
  lemma UpsertSchedules(s: State, id: string, data: Task, now: int)
    ensures var s' := Upsert(s, id, data, now);
      && s'.timers[..|s.timers|] == s.timers
      && (Terminal(data) <==> |s'.timers| == |s.timers| + 1)
      && (Terminal(data) ==> s'.timers[|s.timers|] == Timer(now + 600000, id))
      && ("status" !in data ==> s'.timers == s.timers)
  {
  }

  /** Firing removes exactly the ids whose timers are due, keeps every other
      task unchanged, and keeps only the timers not yet due. */
  lemma ExpireSpec(s: State, now: int)
    ensures var s' := Expire(s, now);
      && (forall id :: id in s'.tasks <==> id in s.tasks && !(exists t :: t in s.timers && t.deadline <= now && t.id == id))
      && (forall id :: id in s'.tasks ==> s'.tasks[id] == s.tasks[id])
      && (forall t :: t in s'.timers <==> t in s.timers && t.deadline > now)
  {
    var gone := Due(s.timers, now);
    StillPendingSpec(s.timers, now);
    forall id
      ensures id in gone <==> exists t :: t in s.timers && t.deadline <= now && t.id == id
    {
      if exists t :: t in s.timers && t.deadline <= now && t.id == id {
        var t :| t in s.timers && t.deadline <= now && t.id == id;
        assert t.id in gone;
      }
    }
  }

  /** Updates applied one after another. */
  function UpsertAll(s: State, updates: seq<(string, Task, int)>): State
    decreases |updates|
  {
    if updates == [] then s
    else UpsertAll(Upsert(s, updates[0].0, updates[0].1, updates[0].2), updates[1..])
  }

  lemma {:induction false} UpsertAllKeepsTimers(s: State, updates: seq<(string, Task, int)>)
    ensures var s' := UpsertAll(s, updates);
      |s.timers| <= |s'.timers| && s'.timers[..|s.timers|] == s.timers
    decreases |updates|
  {
    if updates != [] {
      var next := Upsert(s, updates[0].0, updates[0].1, updates[0].2);
      UpsertAllKeepsTimers(next, updates[1..]);
      var s' := UpsertAll(s, updates);
      assert s'.timers[..|s.timers|] == s'.timers[..|next.timers|][..|s.timers|];
    }
  }

  /** The expiry of a terminal update is unconditional: whatever updates to
      the same id come before the deadline (even one that makes it pending
      again), once ten minutes have passed the id is gone. */
  lemma ExpiryUnconditional(s: State, id: string, data: Task, now: int,
                            later: seq<(string, Task, int)>, at: int)
    requires Terminal(data) && at >= now + ExpiryMs
    requires forall u :: u in later ==> u.2 < now + ExpiryMs
    ensures id !in Expire(UpsertAll(Upsert(s, id, data, now), later), at).tasks
  {
    var s1 := Upsert(s, id, data, now);
    var timer := Timer(now + ExpiryMs, id);
    assert s1.timers[|s.timers|] == timer;
    UpsertAllKeepsTimers(s1, later);
    var s2 := UpsertAll(s1, later);
    assert s2.timers[|s.timers|] == s1.timers[|s.timers|];
    assert timer in s2.timers;
    assert id in Due(s2.timers, at);
  }

  /** The listing holds every current task exactly once, in insertion order. */
  lemma ValuesSpec(s: State)
    requires Consistent(s)
    ensures |Values(s)| == |s.tasks|
    ensures forall i :: 0 <= i < |Values(s)| ==> Values(s)[i] == s.tasks[s.order[i]]
    ensures forall id :: id in s.tasks ==> exists i :: 0 <= i < |s.order| && s.order[i] == id
  {
    DistinctCount(s.order);
    assert s.tasks.Keys == set id | id in s.order;
    forall id | id in s.tasks
      ensures exists i :: 0 <= i < |s.order| && s.order[i] == id
    {
      assert id in s.order;
    }
  }

  lemma {:induction false} DistinctCount(s: seq<string>)
    requires Distinct(s)
    ensures |set x | x in s| == |s|
    decreases |s|
  {
    if s != [] {
      var init := s[..|s| - 1];
      assert Distinct(init);
      DistinctCount(init);
      assert (set x | x in s) == (set x | x in init) + {s[|s| - 1]} by {
        assert s == init + [s[|s| - 1]];
      }
      assert s[|s| - 1] !in init;
    }
  }

  /** The timer callbacks due at `now`, run in the order they were set. */
  method FireDue(tasks: map<string, Task>, order: seq<string>, timers: seq<Timer>, now: int)
    returns (live: map<string, Task>, kept: seq<string>, pending: seq<Timer>)
    ensures live == tasks - Due(timers, now)
    ensures kept == Without(order, Due(timers, now))
    ensures pending == StillPending(timers, now)
  {
    live, kept, pending := tasks, order, [];
    var i := 0;
    ghost var gone: set<string> := {};
    WithoutNothing(order);
    while i < |timers|
      invariant Fired(tasks, order, timers, now, i, gone, live, kept, pending)
    {
      var t := timers[i];
      var j := i + 1;
      var live', kept', pending' := live, kept, pending;
      ghost var gone' := gone;
      if t.deadline <= now {
        live' := live - {t.id};
        kept' := Without(kept, {t.id});
        gone' := gone + {t.id};
      } else {
        pending' := pending + [t];
      }
      FireStep(tasks, order, timers, now, i, j, gone, live, kept, pending, gone', live', kept', pending');
      live, kept, pending, gone, i := live', kept', pending', gone', j;
    }
    assert timers[..|timers|] == timers;
  }

  /** The state after the first `i` timer callbacks. */
  ghost predicate Fired(tasks: map<string, Task>, order: seq<string>, timers: seq<Timer>, now: int,
                        i: nat, gone: set<string>, live: map<string, Task>, kept: seq<string>, pending: seq<Timer>) {
    && i <= |timers|
    && gone == Due(timers[..i], now)
    && live == tasks - gone
    && kept == Without(order, gone)
    && pending == StillPending(timers[..i], now)
  }

  /** One timer callback: a due timer deletes its task, one not yet due
      stays pending. */
  lemma FireStep(tasks: map<string, Task>, order: seq<string>, timers: seq<Timer>, now: int, i: nat, j: nat,
                 gone: set<string>, live: map<string, Task>, kept: seq<string>, pending: seq<Timer>,
                 gone': set<string>, live': map<string, Task>, kept': seq<string>, pending': seq<Timer>)
    requires Fired(tasks, order, timers, now, i, gone, live, kept, pending)
    requires i < |timers| && j == i + 1
    requires var t := timers[i];
      if t.deadline <= now then
        gone' == gone + {t.id} && live' == live - {t.id} && kept' == Without(kept, {t.id}) && pending' == pending
      else
        gone' == gone && live' == live && kept' == kept && pending' == pending + [t]
    ensures Fired(tasks, order, timers, now, j, gone', live', kept', pending')
  {
    var t := timers[i];
    DueStep(timers, i, j, now);
    PendingStep(timers, i, j, now);
    if t.deadline <= now {
      assert (tasks - gone) - {t.id} == tasks - (gone + {t.id});
      WithoutTwice(order, gone, t.id);
    }
  }

  lemma PendingStep(timers: seq<Timer>, i: nat, j: nat, now: int)
    requires i < |timers| && j == i + 1
    ensures StillPending(timers[..j], now)
      == StillPending(timers[..i], now) + (if timers[i].deadline > now then [timers[i]] else [])
  {
    var pre := timers[..j];
    assert pre[..|pre| - 1] == timers[..i] && pre[|pre| - 1] == timers[i];
  }

  /** The live registry object. */
  class Registry {
    var tasks: map<string, Task>
    var order: seq<string>
    var timers: seq<Timer>

    function Snapshot(): State
      reads this
    {
      State(tasks, order, timers)
    }

    ghost predicate Valid()
      reads this
    {
      Consistent(Snapshot())
    }

    constructor ()
      ensures Valid() && Snapshot() == Empty
    {
      tasks := map[];
      order := [];
      timers := [];
    }

    /** `downloadTasks.has(id)`. */
    function Has(id: string): bool
      reads this
    {
      id in tasks
    }

    /** `updateDownloadTask(id, data)` at time `now`. */
    method Update(id: string, data: Task, now: int)
      requires Valid()
      modifies this
      ensures Valid()
      ensures Snapshot() == Upsert(old(Snapshot()), id, data, now)
    {
      var existing := if id in tasks then Some(tasks[id]) else None;
      if id !in tasks {
        order := order + [id];
      }
      tasks := tasks[id := Merge(existing, id, data, now)];
      if data.Keys >= {"status"} && (data["status"] == Str("completed") || data["status"] == Str("failed")) {
        timers := timers + [Timer(now + ExpiryMs, id)];
      }
    }

    /** Let the clock reach `now`: every due timer deletes its id. */
    method AdvanceTo(now: int)
      requires Valid()
      modifies this
      ensures Valid()
      ensures Snapshot() == Expire(old(Snapshot()), now)
    {
      ExpireConsistent(Snapshot(), now);
      tasks, order, timers := FireDue(tasks, order, timers, now);
    }

    /** `GET /api/download/tasks`: the current records in map order. */
    method List() returns (values: seq<Task>)
      requires Valid()
      ensures values == Values(Snapshot())
    {
      values := [];
      var i := 0;
      while i < |order|
        invariant 0 <= i <= |order|
        invariant values == Values(Snapshot())[..i]
      {
        values := values + [tasks[order[i]]];
        i := i + 1;
      }
    }
  }

  lemma DueStep(timers: seq<Timer>, i: nat, j: nat, now: int)
    requires i < |timers| && j == i + 1
    ensures Due(timers[..j], now)
      == Due(timers[..i], now) + (if timers[i].deadline <= now then {timers[i].id} else {})
  {
    assert timers[..j] == timers[..i] + [timers[i]];
  }

  /** Taking ids out one batch after another is taking out their union. */
  lemma {:induction false} WithoutTwice(order: seq<string>, gone: set<string>, id: string)
    ensures Without(Without(order, gone), {id}) == Without(order, gone + {id})
    decreases |order|
  {
    if order != [] {
      var init, last := order[..|order| - 1], order[|order| - 1];
      WithoutTwice(init, gone, id);
      var kept := if last in gone then [] else [last];
      WithoutConcat(Without(init, gone), kept, {id});
      assert Without(kept, {id}) == (if last in gone + {id} then [] else [last]) by {
        if kept != [] {
          assert kept[..0] == [];
        }
      }
    }
  }

  lemma {:induction false} WithoutConcat(a: seq<string>, b: seq<string>, gone: set<string>)
    ensures Without(a + b, gone) == Without(a, gone) + Without(b, gone)
    decreases |b|
  {
    if b != [] {
      var init := b[..|b| - 1];
      assert (a + b)[..|a + b| - 1] == a + init;
      WithoutConcat(a, init, gone);
    } else {
      assert a + b == a;
    }
  }

  lemma {:induction false} WithoutNothing(order: seq<string>)
    ensures Without(order, {}) == order
  {
    if order != [] {
      var init, last := order[..|order| - 1], order[|order| - 1];
      WithoutNothing(init);
      assert Without(order, {}) == Without(init, {}) + [last];
      assert init + [last] == order;
    }
  }
}
