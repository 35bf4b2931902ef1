/** `POST /api/playlist/save-all`: request validation, pre-registration of
    one pending download task per song, processing in consecutive batches
    of five, and the success/failure accounting. What the upstream API and
    the storage layer answer for each song is given as a per-song report;
    the order in which the songs of each batch finish is given as one
    permutation per batch. */
module SaveAll {

  import opened Wrappers
  import opened JsText
  import opened JsValue
  import opened TaskRegistry

  const BatchSize: nat := 5
  const MaxSongs: nat := 5000

  /** A validated request: `source`, the `songs` array, and the quality. */
  datatype Request = Request(source: Value, songs: seq<Value>, quality: Value)

  /** One entry of `results.details`. */
  datatype Detail = Detail(id: Value, name: Value, status: string, error: Option<string>)

  datatype Results = Results(total: nat, success: nat, failed: nat, details: seq<Detail>)

  datatype Response =
    | BadRequest(message: string)     // 400
    | ServerError(message: string)    // 500
    | Done(message: string, results: Results)

  /** The 400 checks, in order, and the destructuring of the body. */
  function Validate(body: Value): (r: Result<Request, string>)
  {
    if !Truthy(body) then Failure("请求体为空")
    else
      var source, songs := Get(body, "source").value, Get(body, "songs").value;
      var quality := SaveAllQuality(Get(body, "quality").value);
      if !Truthy(source) || !Truthy(songs) || !IsArray(songs) || |songs.items| == 0 then Failure("缺少必要参数")
      else if |songs.items| > MaxSongs then Failure("歌曲数量过多，最多支持500首")
      else Success(Request(source, songs.items, quality))
  }

  /** `source` is truthy and `songs` is a non-empty array. */
  predicate HasSourceAndSongs(body: Value)
    requires Truthy(body)
  {
    Truthy(Get(body, "source").value) && Get(body, "songs").value.Arr? && |Get(body, "songs").value.items| > 0
  }

  /** A request is accepted exactly when the body is present, `source` is
      truthy, `songs` is a non-empty array of at most 5000 songs; each
      rejection carries the message of the first failing check. */
  lemma ValidateSpec(body: Value)
    ensures var r := Validate(body);
      && (r.Success? <==>
            Truthy(body) && Truthy(Get(body, "source").value)
            && Get(body, "songs").value.Arr? && 1 <= |Get(body, "songs").value.items| <= 5000)
      && (!Truthy(body) ==> r == Failure("请求体为空"))
      && (Truthy(body) && !HasSourceAndSongs(body) ==> r == Failure("缺少必要参数"))
      && (Truthy(body) && HasSourceAndSongs(body) && |Get(body, "songs").value.items| > 5000 ==>
            r == Failure("歌曲数量过多，最多支持500首"))
      && (r.Success? ==> r.value.songs == Get(body, "songs").value.items
                         && r.value.source == Get(body, "source").value
                         && (Get(body, "quality").value.Undefined? ==> r.value.quality == Str("flac24bit")))
  {
  }

  // ----- pre-registration -----

  /** The record `{ name, artist, status: 'pending', progress: 0 }`. */
  function PendingRecord(name: Value, artist: Value): Task {
    map["name" := name, "artist" := artist, "status" := Str("pending"), "progress" := Num(0)]
  }

  /** The `forEach` callback for one song: register its task unless the id
      is already known. `song.id` throws on a null or undefined song. */
  function RegisterOne(s: State, r: Request, song: Value, now: int): Result<State, string> {
    match Get(song, "id")
    case Failure(m) => Failure(m)
    case Success(id) =>
      var tid := TaskId(r.source, id, r.quality);
      if tid in s.tasks then Success(s)
      else
        var name := Or(Get(song, "name").value, Str("未知歌曲"));
        var artist := Or(Get(song, "artist").value, Str("未知歌手"));
        Success(Upsert(s, tid, PendingRecord(name, artist), now))
  }

  /** Registration of the first songs in order; a throw stops the walk and is
      reported with the registry as it was left. */
  function Preregister(s: State, r: Request, songs: seq<Value>, now: int): (State, Option<string>)
    decreases |songs|
  {
    if songs == [] then (s, None)
    else
      var (s1, err) := Preregister(s, r, songs[..|songs| - 1], now);
      if err.Some? then (s1, err)
      else match RegisterOne(s1, r, songs[|songs| - 1], now)
        case Failure(m) => (s1, Some(m))
        case Success(s2) => (s2, None)
  }

  /** The id of a song that does not throw on `song.id`. */
  predicate HasId(song: Value) {
    !song.Undefined? && !song.Null?
  }

  function SongTaskId(r: Request, song: Value): string
    requires HasId(song)
  {
    TaskId(r.source, Get(song, "id").value, r.quality)
  }

  /** The task ids of songs that all have ids, in request order. */
  function TaskIds(r: Request, songs: seq<Value>): (ids: seq<string>)
    requires forall i :: 0 <= i < |songs| ==> HasId(songs[i])
    ensures |ids| == |songs| && forall i :: 0 <= i < |songs| ==> ids[i] == SongTaskId(r, songs[i])
    decreases |songs|
  {
    if songs == [] then [] else TaskIds(r, songs[..|songs| - 1]) + [SongTaskId(r, songs[|songs| - 1])]
  }

  /** The pending record shape of a pre-registered task. */
  predicate IsPending(t: Task) {
    && "status" in t && t["status"] == Str("pending")
    && "progress" in t && t["progress"] == Num(0)
  }

  /** `s'` is `s` with the tasks of `songs` registered and nothing else changed. */
  ghost predicate Registered(s: State, s': State, r: Request, songs: seq<Value>)
    requires forall i :: 0 <= i < |songs| ==> HasId(songs[i])
  {
    && Consistent(s') && s'.timers == s.timers
    && (forall tid :: tid in TaskIds(r, songs) ==> tid in s'.tasks)
    && (forall tid :: tid in s.tasks ==> tid in s'.tasks && s'.tasks[tid] == s.tasks[tid])
    && (forall tid :: tid in s'.tasks && tid !in s.tasks ==> IsPending(s'.tasks[tid]) && tid in TaskIds(r, songs))
  }

  /** Registering one song more extends the relation by that song. */
  lemma RegisterOneStep(s: State, s1: State, r: Request, songs: seq<Value>, song: Value, now: int)
    requires forall i :: 0 <= i < |songs| ==> HasId(songs[i])
    requires HasId(song) && Registered(s, s1, r, songs)
    ensures RegisterOne(s1, r, song, now).Success?
    ensures Registered(s, RegisterOne(s1, r, song, now).value, r, songs + [song])
  {
    var tid := SongTaskId(r, song);
    var all := songs + [song];
    assert all[..|all| - 1] == songs;
    assert TaskIds(r, all) == TaskIds(r, songs) + [tid];
    if tid !in s1.tasks {
      var name := Or(Get(song, "name").value, Str("未知歌曲"));
      var artist := Or(Get(song, "artist").value, Str("未知歌手"));
      NewPendingTask(s, s1, tid, TaskIds(r, songs), name, artist, now);
    }
  }

  /** Registering a new id pending keeps the relation's four clauses. */
  lemma NewPendingTask(s: State, s1: State, tid: string, ids: seq<string>, name: Value, artist: Value, now: int)
    requires Consistent(s1) && s1.timers == s.timers && tid !in s1.tasks
    requires forall t :: t in ids ==> t in s1.tasks
    requires forall t :: t in s.tasks ==> t in s1.tasks && s1.tasks[t] == s.tasks[t]
    requires forall t :: t in s1.tasks && t !in s.tasks ==> IsPending(s1.tasks[t]) && t in ids
    ensures var s2 := Upsert(s1, tid, PendingRecord(name, artist), now);
      && Consistent(s2) && s2.timers == s.timers
      && (forall t :: t in ids + [tid] ==> t in s2.tasks)
      && (forall t :: t in s.tasks ==> t in s2.tasks && s2.tasks[t] == s.tasks[t])
      && (forall t :: t in s2.tasks && t !in s.tasks ==> IsPending(s2.tasks[t]) && t in ids + [tid])
  {
    var data := PendingRecord(name, artist);
    UpsertConsistent(s1, tid, data, now);
    assert !Terminal(data);
    assert IsPending(Merge(None, tid, data, now)) by {
      MergeKeeps(None, tid, data, now, "status");
      MergeKeeps(None, tid, data, now, "progress");
    }
  }

  /** When every song has an id, every song's task is registered; a task
      that existed keeps its record; a new one is pending with progress 0
      and belongs to one of the songs; nothing else changes and no expiry
      is scheduled. */
  lemma {:induction false} PreregisterSpec(s: State, r: Request, songs: seq<Value>, now: int)
    requires Consistent(s)
    requires forall i :: 0 <= i < |songs| ==> HasId(songs[i])
    ensures Preregister(s, r, songs, now).1 == None
    ensures Registered(s, Preregister(s, r, songs, now).0, r, songs)
    decreases |songs|
  {
    if songs == [] {
    } else {
      var init := songs[..|songs| - 1];
      PreregisterSpec(s, r, init, now);
      RegisterOneStep(s, Preregister(s, r, init, now).0, r, init, songs[|songs| - 1], now);
      assert init + [songs[|songs| - 1]] == songs;
    }
  }

  /** A null or undefined song makes the request fail with its TypeError. */
  lemma {:induction false} PreregisterThrows(s: State, r: Request, songs: seq<Value>, now: int, k: nat)
    requires k < |songs| && !HasId(songs[k])
    ensures Preregister(s, r, songs, now).1.Some?
    decreases |songs|
  {
    if k < |songs| - 1 {
      PreregisterThrows(s, r, songs[..|songs| - 1], now, k);
    }
  }

  // ----- one song -----

  /** The info request: it threw, or answered with the response body. */
  datatype Info = InfoThrew(message: string) | InfoAnswered(body: Value)

  /** `data && data.code === 200 && data.data`: the song info, if usable. */
  function SongInfo(body: Value): (info: Option<Value>)
    ensures info.Some? <==> Truthy(body) && Get(body, "code").value == Num(200) && Truthy(Get(body, "data").value)
    ensures info.Some? ==> info.value == Get(body, "data").value && Truthy(info.value)
  {
    if Truthy(body) && Get(body, "code").value == Num(200) && Truthy(Get(body, "data").value)
    then Some(Get(body, "data").value)
    else None
  }

  /** The url request: a 301/302 redirect, another accepted status, or a throw. */
  datatype UrlAnswer = Redirect | NoRedirect | UrlThrew(message: string)

  /** What the outside world answers while one song is processed:
      `getLocalSongPath` (found, not found, or a thrown message), the
      `downloadAndSaveSong` throw if any, and the clock at the task update.
      Lyrics and cover errors are caught inside and do not matter here. */
  datatype SongReport = SongReport(info: Info, cached: Result<bool, string>, url: UrlAnswer,
                                   download: Option<string>, at: int)

  /** A song's effect: its detail, whether it counts as a success, and the
      task update it makes on the way (the pending update before a download). */
  datatype SongOutcome = SongOutcome(detail: Detail, ok: bool, update: Option<(string, Task, int)>)

  function FailedOutcome(song: Value, message: string, update: Option<(string, Task, int)>): SongOutcome
    requires HasId(song)
  {
    SongOutcome(Detail(Get(song, "id").value, Or(Get(song, "name").value, Str("未知")), "失败", Some(message)),
                false, update)
  }

  /** The `batch.map(async (song) => ...)` callback. */
  function Process(r: Request, song: Value, rep: SongReport): SongOutcome
    requires HasId(song)
  {
    var id := Get(song, "id").value;
    match rep.info
    case InfoThrew(m) => FailedOutcome(song, m, None)
    case InfoAnswered(body) =>
      if SongInfo(body).None? then FailedOutcome(song, "获取歌曲信息失败", None)
      else
      var data := SongInfo(body).value;
      var artist := Or(Get(data, "artist").value, Str("未知歌手"));
      var songName := Or(Or(Get(data, "name").value, Get(song, "name").value), Str("未知歌曲"));
      match rep.cached
      case Failure(m) => FailedOutcome(song, m, None)
      case Success(true) => SongOutcome(Detail(id, songName, "已存在", None), true, None)
      case Success(false) =>
        match rep.url
        case UrlThrew(m) => FailedOutcome(song, m, None)
        case NoRedirect => SongOutcome(Detail(id, songName, "成功", None), true, None)
        case Redirect =>
          var update := Some((TaskId(r.source, id, r.quality), PendingRecord(songName, artist), rep.at));
          if rep.download.Some? then FailedOutcome(song, rep.download.value, update)
          else SongOutcome(Detail(id, songName, "成功", None), true, update)
  }

  /** A success detail says '已存在' or '成功'; a failure says '失败' with an
      error, under the name the request gave (or '未知'). */
  lemma ProcessSpec(r: Request, song: Value, rep: SongReport)
    requires HasId(song)
    ensures var o := Process(r, song, rep);
      && o.detail.id == Get(song, "id").value
      && (o.ok <==> o.detail.status in {"已存在", "成功"})
      && (!o.ok <==> o.detail.status == "失败" && o.detail.error.Some?)
      && (!o.ok ==> o.detail.name == Or(Get(song, "name").value, Str("未知")))
      && (o.detail.status == "已存在" <==> rep.info.InfoAnswered? && SongInfo(rep.info.body).Some? && rep.cached == Success(true))
      && (o.update.Some? ==> IsPending(o.update.value.1) && !Terminal(o.update.value.1))
  {
    match rep.info
    case InfoThrew(_) =>
    case InfoAnswered(body) =>
      if SongInfo(body).Some? {
        match rep.cached
        case Failure(_) =>
        case Success(found) =>
          if !found {
            match rep.url
            case UrlThrew(_) =>
            case NoRedirect =>
            case Redirect =>
          }
      }
  }

  // ----- the batches -----

  /** `order[j]` is the song whose callback finishes `j`-th, every song
      finishes once, and inside its own batch. `BatchesAreSchedule` shows
      that the batch loop only produces such orders. */
  ghost predicate IsSchedule(order: seq<nat>, n: nat) {
    && |order| == n
    && (forall j :: 0 <= j < n ==> order[j] < n && order[j] / BatchSize == j / BatchSize)
    && (forall i, j :: 0 <= i < j < n ==> order[i] != order[j])
  }

  /** How many times `for (i = 0; i < n; i += 5)` runs. */
  function NumBatches(n: nat): nat {
    (n + BatchSize - 1) / BatchSize
  }

  /** The length of `songs.slice(5 * b, 5 * b + 5)`. */
  function BatchLen(n: nat, b: nat): nat {
    if BatchSize * b >= n then 0
    else if n - BatchSize * b < BatchSize then n - BatchSize * b
    else BatchSize
  }

  /** `p` lists `0 .. m-1` once each. */
  predicate IsPermutation(p: seq<nat>, m: nat) {
    && |p| == m
    && (forall t :: 0 <= t < m ==> p[t] < m)
    && (forall t, u :: 0 <= t < u < m ==> p[t] != p[u])
  }

  /** For every batch, the order in which its songs' callbacks settle
      (positions inside the batch). This is the only freedom `Promise.all`
      leaves. */
  predicate BatchOrders(perms: seq<seq<nat>>, n: nat) {
    |perms| == NumBatches(n) && forall b :: 0 <= b < |perms| ==> IsPermutation(perms[b], BatchLen(n, b))
  }

  /** Batch positions turned into song indices. */
  function Shift(p: seq<nat>, base: nat): (q: seq<nat>)
    ensures |q| == |p| && forall t :: 0 <= t < |p| ==> q[t] == base + p[t]
  {
    if p == [] then [] else Shift(p[..|p| - 1], base) + [base + p[|p| - 1]]
  }

  /** The completion order of the first `b` batches. */
  function Completions(perms: seq<seq<nat>>, b: nat): seq<nat>
    requires b <= |perms|
  {
    if b == 0 then [] else Completions(perms, b - 1) + Shift(perms[b - 1], BatchSize * (b - 1))
  }

  /** The completion order of the whole loop. */
  function Schedule(perms: seq<seq<nat>>, n: nat): seq<nat>
    requires |perms| == NumBatches(n)
  {
    Completions(perms, NumBatches(n))
  }

  /** Batch `b` exists exactly when it starts below `n`; it is then not
      empty and ends at or before `n`. */
  lemma BatchBounds(n: nat, b: nat)
    ensures b < NumBatches(n) <==> BatchSize * b < n
    ensures BatchSize * b < n ==> 0 < BatchLen(n, b) <= BatchSize && BatchSize * b + BatchLen(n, b) <= n
    ensures BatchSize * b < n && BatchSize * (b + 1) >= n ==> BatchSize * b + BatchLen(n, b) == n
    ensures BatchSize * b < n && BatchSize * (b + 1) < n ==> BatchLen(n, b) == BatchSize
  {
  }

  /** Each completed song lies in the batch of its slot. */
  ghost predicate InOwnBatch(c: seq<nat>, n: nat) {
    forall j :: 0 <= j < |c| ==> c[j] < n && c[j] / BatchSize == j / BatchSize
  }

  ghost predicate NoneTwice(c: seq<nat>) {
    forall i, j :: 0 <= i < j < |c| ==> c[i] != c[j]
  }

  /** The first `b` batches complete the first `5b` songs (or all of them),
      each in its own batch, none twice. */
  lemma {:induction false} CompletionsShape(perms: seq<seq<nat>>, n: nat, b: nat)
    requires BatchOrders(perms, n) && b <= |perms|
    ensures var c := Completions(perms, b);
      && |c| == (if BatchSize * b <= n then BatchSize * b else n)
      && InOwnBatch(c, n) && NoneTwice(c)
    decreases b
  {
    if b > 0 {
      CompletionsShape(perms, n, b - 1);
      var base := BatchSize * (b - 1);
      BatchBounds(n, b - 1);
      var prev, p := Completions(perms, b - 1), perms[b - 1];
      assert |prev| == base;
      AppendInOwnBatch(prev, p, b - 1, n);
      AppendNoneTwice(prev, p, b - 1, n);
    }
  }

  /** Appending batch `b` after the `5b` earlier completions keeps every
      song in its own batch. */
  lemma AppendInOwnBatch(prev: seq<nat>, p: seq<nat>, b: nat, n: nat)
    requires |prev| == BatchSize * b && InOwnBatch(prev, n)
    requires |p| <= BatchSize && BatchSize * b + |p| <= n && IsPermutation(p, |p|)
    ensures InOwnBatch(prev + Shift(p, BatchSize * b), n)
  {
    var base := BatchSize * b;
    var c := prev + Shift(p, base);
    forall j | 0 <= j < |c|
      ensures c[j] < n && c[j] / BatchSize == j / BatchSize
    {
      if j >= base {
        assert c[j] == base + p[j - base];
        SameBatch(b, p[j - base]);
        SameBatch(b, j - base);
      }
    }
  }

  /** Appending a batch after the earlier ones completes no song twice. */
  lemma AppendNoneTwice(prev: seq<nat>, p: seq<nat>, b: nat, n: nat)
    requires |prev| == BatchSize * b && InOwnBatch(prev, n) && NoneTwice(prev)
    requires |p| <= BatchSize && IsPermutation(p, |p|)
    ensures NoneTwice(prev + Shift(p, BatchSize * b))
  {
    var base := BatchSize * b;
    var c := prev + Shift(p, base);
    forall i, j | 0 <= i < j < |c|
      ensures c[i] != c[j]
    {
      if i >= base {
        assert c[i] == base + p[i - base] && c[j] == base + p[j - base];
      } else if j >= base {
        assert c[j] == base + p[j - base];
        SameBatch(b, p[j - base]);
        assert c[i] / BatchSize == i / BatchSize;
        EarlierBatch(b, i, j);
      }
    }
  }

  /** The `t`-th position of batch `b` lies in batch `b`. */
  lemma SameBatch(b: nat, t: nat)
    requires t < BatchSize
    ensures (BatchSize * b + t) / BatchSize == b
  {
  }

  /** An index before batch `b` lies in an earlier batch. */
  lemma EarlierBatch(b: nat, i: nat, j: nat)
    requires i < BatchSize * b <= j
    ensures i / BatchSize < j / BatchSize
  {
  }

  /** The batch loop completes every song exactly once, inside its batch. */
  lemma BatchesAreSchedule(perms: seq<seq<nat>>, n: nat)
    requires BatchOrders(perms, n)
    ensures IsSchedule(Schedule(perms, n), n)
  {
    CompletionsShape(perms, n, NumBatches(n));
    BatchBounds(n, NumBatches(n));
  }

  function Apply(s: State, o: SongOutcome): State {
    if o.update.None? then s else Upsert(s, o.update.value.0, o.update.value.1, o.update.value.2)
  }

  /** One completion: apply the song's task update and count its outcome. */
  function Complete(sr: (State, Results), o: SongOutcome): (State, Results) {
    (Apply(sr.0, o),
     Results(sr.1.total, sr.1.success + (if o.ok then 1 else 0), sr.1.failed + (if o.ok then 0 else 1),
             sr.1.details + [o.detail]))
  }

  /** Every song's outcome, by song index. */
  function Outcomes(r: Request, reps: seq<SongReport>): (outs: seq<SongOutcome>)
    requires |reps| == |r.songs| && forall i :: 0 <= i < |r.songs| ==> HasId(r.songs[i])
    ensures |outs| == |r.songs|
  {
    FirstOutcomes(r, reps, |r.songs|)
  }

  /** The outcomes of the first `n` songs. */
  function FirstOutcomes(r: Request, reps: seq<SongReport>, n: nat): (outs: seq<SongOutcome>)
    requires n <= |reps| == |r.songs| && forall i :: 0 <= i < |r.songs| ==> HasId(r.songs[i])
    ensures |outs| == n
  {
    if n == 0 then [] else FirstOutcomes(r, reps, n - 1) + [Process(r, r.songs[n - 1], reps[n - 1])]
  }

  /** The outcome in slot `k` is the callback's on song `k`. */
  lemma OutcomeAt(r: Request, reps: seq<SongReport>, k: nat)
    requires |reps| == |r.songs| && forall i :: 0 <= i < |r.songs| ==> HasId(r.songs[i])
    requires k < |r.songs|
    ensures Outcomes(r, reps)[k] == Process(r, r.songs[k], reps[k])
  {
    FirstOutcomeAt(r, reps, |r.songs|, k);
  }

  lemma {:induction false} FirstOutcomeAt(r: Request, reps: seq<SongReport>, n: nat, k: nat)
    requires n <= |reps| == |r.songs| && forall i :: 0 <= i < |r.songs| ==> HasId(r.songs[i])
    requires k < n
    ensures FirstOutcomes(r, reps, n)[k] == Process(r, r.songs[k], reps[k])
    decreases n
  {
    if k < n - 1 {
      FirstOutcomeAt(r, reps, n - 1, k);
    }
  }

  /** The registry and the results after the completions `done` (indices
      into `outs`), starting from `s`. */
  function Run(s: State, outs: seq<SongOutcome>, done: seq<nat>): (State, Results)
    requires forall j :: 0 <= j < |done| ==> done[j] < |outs|
    decreases |done|
  {
    if done == [] then (s, Results(|outs|, 0, 0, []))
    else Complete(Run(s, outs, done[..|done| - 1]), outs[done[|done| - 1]])
  }

  /** How many of the completions were successes. */
  function OkCount(outs: seq<SongOutcome>, done: seq<nat>): nat
    requires forall j :: 0 <= j < |done| ==> done[j] < |outs|
    decreases |done|
  {
    if done == [] then 0
    else OkCount(outs, done[..|done| - 1]) + (if outs[done[|done| - 1]].ok then 1 else 0)
  }

  /** Every completion adds one detail and one to exactly one counter: the
      counts add up to the number of completions, the successes are the
      outcomes that were, and the details are the outcomes' in completion
      order. */
  lemma {:induction false} RunCounts(s: State, outs: seq<SongOutcome>, done: seq<nat>)
    requires forall j :: 0 <= j < |done| ==> done[j] < |outs|
    ensures var res := Run(s, outs, done).1;
      && res.total == |outs|
      && res.success + res.failed == |done| && |res.details| == |done|
      && (forall j :: 0 <= j < |done| ==> res.details[j] == outs[done[j]].detail)
      && res.success == OkCount(outs, done)
    decreases |done|
  {
    if done != [] {
      RunCounts(s, outs, done[..|done| - 1]);
    }
  }

  /** The only update a song makes is a pending one. */
  lemma OutcomesPending(r: Request, reps: seq<SongReport>)
    requires |reps| == |r.songs| && forall i :: 0 <= i < |r.songs| ==> HasId(r.songs[i])
    ensures forall i :: 0 <= i < |r.songs| ==> var o := Outcomes(r, reps)[i];
      o.update.Some? ==> IsPending(o.update.value.1) && !Terminal(o.update.value.1)
  {
    forall i | 0 <= i < |r.songs|
      ensures var o := Outcomes(r, reps)[i];
        o.update.Some? ==> IsPending(o.update.value.1) && !Terminal(o.update.value.1)
    {
      OutcomeAt(r, reps, i);
      ProcessSpec(r, r.songs[i], reps[i]);
    }
  }

  /** Pending updates schedule no expiry: after a run of them the timers are
      as before, whatever the order. */
  lemma {:induction false} RunSchedulesNothing(s: State, outs: seq<SongOutcome>, done: seq<nat>)
    requires forall j :: 0 <= j < |done| ==> done[j] < |outs|
    requires forall i :: 0 <= i < |outs| ==> outs[i].update.Some? ==> !Terminal(outs[i].update.value.1)
    requires Consistent(s)
    ensures Run(s, outs, done).0.timers == s.timers
    ensures Consistent(Run(s, outs, done).0)
    decreases |done|
  {
    if done != [] {
      RunSchedulesNothing(s, outs, done[..|done| - 1]);
      var s1 := Run(s, outs, done[..|done| - 1]).0;
      var o := outs[done[|done| - 1]];
      if o.update.Some? {
        UpsertConsistent(s1, o.update.value.0, o.update.value.1, o.update.value.2);
      }
    }
  }

  /** The summary of the batch loop: every song is counted once, as a
      success or a failure; its outcome's detail sits at its slot, the one
      place the loop completes it, inside its own batch of five; and when
      the songs make only non-terminal updates (as `OutcomesPending` shows
      they do), no expiry is scheduled. */
  lemma RunAccounts(s: State, outs: seq<SongOutcome>, perms: seq<seq<nat>>)
    requires Consistent(s)
    requires BatchOrders(perms, |outs|)
    requires forall i :: 0 <= i < |outs| ==> outs[i].update.Some? ==> !Terminal(outs[i].update.value.1)
    ensures IsSchedule(Schedule(perms, |outs|), |outs|)
    ensures var order := Schedule(perms, |outs|);
      var (s', res) := Run(s, outs, order);
      && res.total == res.success + res.failed == |outs| == |res.details|
      && (forall k :: 0 <= k < |outs| ==> res.details[SlotOf(order, |outs|, k)] == outs[k].detail)
      && s'.timers == s.timers
  {
    BatchesAreSchedule(perms, |outs|);
    var order := Schedule(perms, |outs|);
    RunCounts(s, outs, order);
    RunSchedulesNothing(s, outs, order);
    Placed(order, Run(s, outs, order).1.details, outs);
  }

  /** The completion slot of song `k` in a schedule. */
  ghost function SlotOf(order: seq<nat>, n: nat, k: nat): (j: nat)
    requires IsSchedule(order, n) && k < n
    ensures j < n && order[j] == k && j / BatchSize == k / BatchSize
  {
    ScheduleCoversAll(order, n, k);
    var j :| 0 <= j < n && order[j] == k && j / BatchSize == k / BatchSize;
    j
  }

  /** Details listed in a schedule's completion order hold each song's
      detail in the song's own slot. */
  lemma Placed(order: seq<nat>, details: seq<Detail>, outs: seq<SongOutcome>)
    requires IsSchedule(order, |outs|) && |details| == |outs|
    requires forall j :: 0 <= j < |order| ==> details[j] == outs[order[j]].detail
    ensures forall k :: 0 <= k < |outs| ==> details[SlotOf(order, |outs|, k)] == outs[k].detail
  {
  }

  /** In a schedule every song finishes exactly once, in its own batch
      `⌊i/5⌋`. */
  lemma ScheduleCoversAll(order: seq<nat>, n: nat, k: nat)
    requires IsSchedule(order, n) && k < n
    ensures exists j :: 0 <= j < n && order[j] == k && j / BatchSize == k / BatchSize
    ensures forall j1, j2 :: 0 <= j1 < n && 0 <= j2 < n && order[j1] == k && order[j2] == k ==> j1 == j2
  {
    var values := set j | 0 <= j < n :: order[j];
    assert values <= Range(n);
    DistinctImage(order, n);
    SubsetSize(values, Range(n));
    assert k in values;
  }

  /** The indices below `n`. */
  function Range(n: nat): (r: set<nat>)
    ensures |r| == n
    ensures forall k: nat :: k in r <==> k < n
  {
    if n == 0 then {}
    else
      var below := Range(n - 1);
      assert n - 1 !in below;
      below + {n - 1}
  }

  lemma {:induction false} DistinctImage(order: seq<nat>, n: nat)
    requires |order| == n && forall i, j :: 0 <= i < j < n ==> order[i] != order[j]
    ensures |set j | 0 <= j < n :: order[j]| == n
  {
    if n > 0 {
      var init := order[..n - 1];
      DistinctImage(init, n - 1);
      var a := set j | 0 <= j < n - 1 :: init[j];
      assert (set j | 0 <= j < n :: order[j]) == a + {order[n - 1]} by {
        assert forall j :: 0 <= j < n - 1 ==> init[j] == order[j];
      }
      assert order[n - 1] !in a;
    }
  }

  lemma {:induction false} SubsetSize(a: set<nat>, b: set<nat>)
    requires a <= b
    ensures |a| <= |b|
    ensures |a| == |b| ==> a == b
    decreases |b|
  {
    if b != {} {
      var x :| x in b;
      SubsetSize(a - {x}, b - {x});
      assert |b - {x}| == |b| - 1;
      if x in a {
        assert |a - {x}| == |a| - 1;
        assert a == (a - {x}) + {x} && b == (b - {x}) + {x};
      } else {
        assert a - {x} == a;
      }
    }
  }

  // ----- the route -----

  /** Record one finished song in the registry and the results. */
  method Record(reg: Registry, o: SongOutcome, res: Results) returns (res': Results)
    requires reg.Valid()
    modifies reg
    ensures reg.Valid()
    ensures (reg.Snapshot(), res') == Complete((old(reg.Snapshot()), res), o)
  {
    if o.update.Some? {
      reg.Update(o.update.value.0, o.update.value.1, o.update.value.2);
    }
    res' := Results(res.total, res.success + (if o.ok then 1 else 0), res.failed + (if o.ok then 0 else 1),
                    res.details + [o.detail]);
  }

  /** The `for` loop over batches of five: each batch's callbacks settle
      in the order `perms` gives for it, and the next batch starts once
      `Promise.all` has seen them all. */
  method RunBatches(reg: Registry, r: Request, reps: seq<SongReport>, perms: seq<seq<nat>>) returns (res: Results)
    requires reg.Valid()
    requires |reps| == |r.songs| && forall i :: 0 <= i < |r.songs| ==> HasId(r.songs[i])
    requires BatchOrders(perms, |r.songs|)
    modifies reg
    ensures reg.Valid()
    ensures IsSchedule(Schedule(perms, |r.songs|), |r.songs|)
    ensures (reg.Snapshot(), res) == Run(old(reg.Snapshot()), Outcomes(r, reps), Schedule(perms, |r.songs|))
  {
    var n := |r.songs|;
    res := Results(n, 0, 0, []);
    ghost var s0 := reg.Snapshot();
    var i, b := 0, 0;
    while i < n
      invariant b <= NumBatches(n) && i == BatchSize * b
      invariant forall j :: 0 <= j < |Completions(perms, b)| ==> Completions(perms, b)[j] < n
      invariant reg.Valid()
      invariant (reg.Snapshot(), res) == Run(s0, Outcomes(r, reps), Completions(perms, b))
    {
      BatchBounds(n, b);
      res := RunBatch(reg, r, reps, i, perms[b], res, s0, Completions(perms, b));
      i, b := i + BatchSize, b + 1;
    }
    BatchBounds(n, b);
    BatchesAreSchedule(perms, n);
  }

  /** One batch: its songs are recorded in the order they settle, `p`
      giving positions inside the batch that starts at song `i`. */
  method RunBatch(reg: Registry, r: Request, reps: seq<SongReport>, i: nat, p: seq<nat>, res0: Results,
                  ghost s0: State, ghost before: seq<nat>) returns (res: Results)
    requires reg.Valid()
    requires |reps| == |r.songs| && forall k :: 0 <= k < |r.songs| ==> HasId(r.songs[k])
    requires i + |p| <= |r.songs| && IsPermutation(p, |p|)
    requires forall j :: 0 <= j < |before| ==> before[j] < |r.songs|
    requires (reg.Snapshot(), res0) == Run(s0, Outcomes(r, reps), before)
    modifies reg
    ensures reg.Valid()
    ensures forall j :: 0 <= j < |before + Shift(p, i)| ==> (before + Shift(p, i))[j] < |r.songs|
    ensures (reg.Snapshot(), res) == Run(s0, Outcomes(r, reps), before + Shift(p, i))
  {
    res := res0;
    ghost var outs := Outcomes(r, reps);
    ghost var batch := Shift(p, i);
    ghost var done := before;
    var t := 0;
    while t < |p|
      invariant 0 <= t <= |p|
      invariant done == before + batch[..t]
      invariant forall j :: 0 <= j < |done| ==> done[j] < |outs|
      invariant reg.Valid()
      invariant (reg.Snapshot(), res) == Run(s0, outs, done)
    {
      var k := i + p[t];
      var o := Process(r, r.songs[k], reps[k]);
      OutcomeAt(r, reps, k);
      RunAppend(s0, outs, done, k);
      res := Record(reg, o, res);
      assert batch[..t + 1] == batch[..t] + [k];
      done := done + [k];
      t := t + 1;
    }
    assert batch[..|p|] == batch;
  }

  /** `Run` over one more completion. */
  lemma RunAppend(s: State, outs: seq<SongOutcome>, done: seq<nat>, k: nat)
    requires k < |outs| && forall j :: 0 <= j < |done| ==> done[j] < |outs|
    ensures Run(s, outs, done + [k]) == Complete(Run(s, outs, done), outs[k])
  {
    assert (done + [k])[..|done|] == done;
  }

  /** `Preregister` over one more song that registers. */
  lemma PreregisterStep(s: State, r: Request, songs: seq<Value>, i: nat, now: int, s1: State, s2: State)
    requires i < |songs| && Preregister(s, r, songs[..i], now) == (s1, None)
    requires RegisterOne(s1, r, songs[i], now) == Success(s2)
    ensures Preregister(s, r, songs[..i + 1], now) == (s2, None)
  {
    assert songs[..i + 1][..i] == songs[..i];
  }

  /** `Preregister` over one more song that throws. */
  lemma PreregisterThrowStep(s: State, r: Request, songs: seq<Value>, i: nat, now: int, s1: State)
    requires i < |songs| && Preregister(s, r, songs[..i], now) == (s1, None) && !HasId(songs[i])
    ensures Preregister(s, r, songs[..i + 1], now) == (s1, Some(Get(songs[i], "id").error))
  {
    assert songs[..i + 1][..i] == songs[..i];
  }

  /** The `forEach` callback for a song that has an id. */
  method RegisterSong(reg: Registry, r: Request, song: Value, now: int)
    requires reg.Valid() && HasId(song)
    modifies reg
    ensures reg.Valid()
    ensures RegisterOne(old(reg.Snapshot()), r, song, now) == Success(reg.Snapshot())
  {
    var tid := TaskId(r.source, Get(song, "id").value, r.quality);
    if !reg.Has(tid) {
      var name := Or(Get(song, "name").value, Str("未知歌曲"));
      var artist := Or(Get(song, "artist").value, Str("未知歌手"));
      reg.Update(tid, PendingRecord(name, artist), now);
    }
  }

  /** The `songs.forEach` pre-registration: stops at the first song that
      has no id. */
  method PreregisterAll(reg: Registry, r: Request, now: int) returns (err: Option<string>)
    requires reg.Valid()
    modifies reg
    ensures reg.Valid()
    ensures (reg.Snapshot(), err) == Preregister(old(reg.Snapshot()), r, r.songs, now)
    ensures err.None? ==> forall i :: 0 <= i < |r.songs| ==> HasId(r.songs[i])
  {
    ghost var s0 := reg.Snapshot();
    var i := 0;
    while i < |r.songs|
      invariant 0 <= i <= |r.songs|
      invariant reg.Valid()
      invariant Preregister(s0, r, r.songs[..i], now) == (reg.Snapshot(), None)
      invariant forall m :: 0 <= m < i ==> HasId(r.songs[m])
    {
      var song := r.songs[i];
      if !HasId(song) {
        PreregisterThrowStep(s0, r, r.songs, i, now, reg.Snapshot());
        PreregisterStops(s0, r, r.songs, now, i + 1);
        return Some(Get(song, "id").error);
      }
      ghost var s1 := reg.Snapshot();
      RegisterSong(reg, r, song, now);
      PreregisterStep(s0, r, r.songs, i, now, s1, reg.Snapshot());
      assert forall m :: 0 <= m < i + 1 ==> HasId(r.songs[m]);
      i := i + 1;
    }
    assert r.songs[..|r.songs|] == r.songs;
    return None;
  }

  /** The whole handler: a 400 for a bad request, a 500 when a song has no
      id (the tasks registered before it stay), otherwise the batches and
      the summary. */
  method SaveAllRoute(reg: Registry, body: Value, reps: seq<SongReport>, perms: seq<seq<nat>>, now: int)
    returns (resp: Response)
    requires reg.Valid()
    requires Validate(body).Success? ==>
      |reps| == |Validate(body).value.songs| && BatchOrders(perms, |Validate(body).value.songs|)
    modifies reg
    ensures reg.Valid()
    ensures Validate(body).Failure? ==> resp == BadRequest(Validate(body).error) && reg.Snapshot() == old(reg.Snapshot())
    ensures Validate(body).Success? ==>
      var r := Validate(body).value;
      var pre := Preregister(old(reg.Snapshot()), r, r.songs, now);
      if pre.1.Some? then resp == ServerError(pre.1.value) && reg.Snapshot() == pre.0
      else
        && (forall i :: 0 <= i < |r.songs| ==> HasId(r.songs[i]))
        && IsSchedule(Schedule(perms, |r.songs|), |r.songs|)
        && var (s2, res) := Run(pre.0, Outcomes(r, reps), Schedule(perms, |r.songs|));
        && reg.Snapshot() == s2 && resp == Done(DoneMessage(res), res)
  {
    var v := Validate(body);
    if v.Failure? {
      return BadRequest(v.error);
    }
    var r := v.value;
    var err := PreregisterAll(reg, r, now);
    if err.Some? {
      return ServerError(err.value);
    }
    var res := RunBatches(reg, r, reps, perms);
    resp := Done(DoneMessage(res), res);
  }

  /** Once the walk has thrown at a prefix, it reports that same state and
      error for the whole list. */
  lemma {:induction false} PreregisterStops(s: State, r: Request, songs: seq<Value>, now: int, k: nat)
    requires 0 < k <= |songs| && Preregister(s, r, songs[..k], now).1.Some?
    ensures Preregister(s, r, songs, now) == Preregister(s, r, songs[..k], now)
    decreases |songs|
  {
    if k < |songs| {
      var init := songs[..|songs| - 1];
      assert init[..k] == songs[..k];
      PreregisterStops(s, r, init, now, k);
    } else {
      assert songs[..k] == songs;
    }
  }

  /** `保存完成：成功 ${success}，失败 ${failed}`. */
  function DoneMessage(res: Results): string {
    "保存完成：成功 " + NatToString(res.success) + "，失败 " + NatToString(res.failed)
  }
}
