/** The client's play queue: the list of queued songs, the index of the
    current one (-1 for none), and the play mode that decides what "next"
    and "previous" mean. `Math.random` is the `pick` parameter; starting
    playback is left to the caller. */
module PlayQueue {

  import opened Wrappers
  import opened JsValue

  datatype Song = Song(platform: Value, id: Value, name: Value, artist: Value)

  /** `song.platform === platform && song.id === id`. */
  predicate SameSong(a: Song, platform: Value, id: Value) {
    StrictEquals(a.platform, platform) && StrictEquals(a.id, id)
  }

  predicate Queued(q: seq<Song>, platform: Value, id: Value) {
    exists i :: 0 <= i < |q| && SameSong(q[i], platform, id)
  }

  /** No two queued songs share `(platform, id)`. */
  predicate NoDuplicates(q: seq<Song>) {
    forall i, j :: 0 <= i < j < |q| ==> !SameSong(q[j], q[i].platform, q[i].id)
  }

  /** -1 (nothing current) or a valid index. */
  predicate InRange(q: seq<Song>, c: int) {
    -1 <= c < |q|
  }

  // ----- the modes -----

  const Sequence: string := "sequence"
  const Loop: string := "loop"
  const Random: string := "random"
  const Single: string := "single"

  const Modes: seq<string> := [Sequence, Loop, Random, Single]

  /** `modes.indexOf(mode)`. */
  function IndexOf(modes: seq<string>, mode: string): (k: int)
    ensures -1 <= k < |modes|
    ensures k >= 0 ==> modes[k] == mode && forall i :: 0 <= i < k ==> modes[i] != mode
    ensures k == -1 ==> mode !in modes
    decreases |modes|
  {
    if modes == [] then -1
    else if modes[0] == mode then 0
    else
      var k := IndexOf(modes[1..], mode);
      if k == -1 then -1 else k + 1
  }

  /** `modes[(modes.indexOf(playMode) + 1) % modes.length]`. */
  function NextMode(mode: string): string {
    Modes[(IndexOf(Modes, mode) + 1) % |Modes|]
  }

  /** The modes cycle sequence, loop, random, single; a mode restored from
      storage that is none of them switches to sequence; four switches
      return to the start. */
  lemma NextModeSpec(mode: string)
    ensures NextMode(Sequence) == Loop && NextMode(Loop) == Random
    ensures NextMode(Random) == Single && NextMode(Single) == Sequence
    ensures mode !in Modes ==> NextMode(mode) == Sequence
    ensures NextMode(mode) in Modes
    ensures mode in Modes ==> NextMode(NextMode(NextMode(NextMode(mode)))) == mode
  {
    assert Modes[1..] == [Loop, Random, Single];
    assert Modes[2..] == [Random, Single];
    assert Modes[3..] == [Single];
  }

  // ----- queue edits -----

  /** The queue after `addToQueue`. */
  function Added(q: seq<Song>, s: Song): seq<Song> {
    if Queued(q, s.platform, s.id) then q else q + [s]
  }

  /** The queue and index after `removeFromQueue(index)`. */
  function RemovedAt(q: seq<Song>, c: int, index: int): (seq<Song>, int) {
    if 0 <= index < |q| then (q[..index] + q[index + 1..], if c >= index then c - 1 else c)
    else (q, c)
  }

  /** The queue with the song at `dragged` taken out and put back in at
      `newIndex` (two `splice` calls). */
  function Moved(q: seq<Song>, dragged: nat, newIndex: nat): seq<Song>
    requires dragged < |q| && newIndex < |q|
  {
    var rest := q[..dragged] + q[dragged + 1..];
    rest[..newIndex] + [q[dragged]] + rest[newIndex..]
  }

  /** `d < dropIndex ? dropIndex - 1 : dropIndex`. */
  function NewIndex(dragged: nat, drop: nat): nat {
    if dragged < drop then drop - 1 else drop
  }

  /** The drop reorder as the source writes it: move the dragged song to
      `newIndex`, then adjust the current index. */
  function ReorderedAsWritten(q: seq<Song>, c: int, dragged: nat, drop: nat): (seq<Song>, int)
    requires dragged < |q| && drop < |q|
  {
    var newIndex := NewIndex(dragged, drop);
    (Moved(q, dragged, newIndex),
     if c == dragged then newIndex
     else if c > dragged && c <= drop then c - 1
     else if c < dragged && c >= newIndex then c + 1
     else c)
  }

  /** The drop reorder with the forward-drag test bounded by `newIndex`: the
      songs strictly between the dragged one and the drop target move up by
      one, and the target itself keeps its place. */
  function Reordered(q: seq<Song>, c: int, dragged: nat, drop: nat): (seq<Song>, int)
    requires dragged < |q| && drop < |q|
  {
    var newIndex := NewIndex(dragged, drop);
    (Moved(q, dragged, newIndex),
     if c == dragged then newIndex
     else if c > dragged && c <= newIndex then c - 1
     else if c < dragged && c >= newIndex then c + 1
     else c)
  }

  /** The index `playNext` moves to, if any. */
  function NextIndex(q: seq<Song>, c: int, mode: string, pick: int): int {
    if |q| == 0 then c
    else
      var next :=
        if mode == Random then pick
        else if mode == Single then c
        else if c >= |q| - 1 then (if mode == Loop then 0 else |q|)
        else c + 1;
      if 0 <= next < |q| then next else c
  }

  /** The index `playPrevious` moves to, if any. */
  function PreviousIndex(q: seq<Song>, c: int, mode: string, pick: int): int {
    if |q| == 0 then c
    else
      var next :=
        if mode == Random then pick
        else if c <= 0 then (if mode == Loop then |q| - 1 else -1)
        else c - 1;
      if 0 <= next < |q| then next else c
  }

  // ----- the player state -----

  class Player {
    var queue: seq<Song>
    var current: int
    var mode: string

    constructor ()
      ensures queue == [] && current == -1 && mode == Sequence
    {
      queue := [];
      current := -1;
      mode := Sequence;
    }

    /** `addToQueue(platform, id, name, artist)`. */
    method AddToQueue(platform: Value, id: Value, name: Value, artist: Value)
      modifies this
      ensures queue == Added(old(queue), Song(platform, id, name, artist))
      ensures current == old(current) && mode == old(mode)
    {
      var i := 0;
      while i < |queue|
        invariant 0 <= i <= |queue|
        invariant forall k :: 0 <= k < i ==> !SameSong(queue[k], platform, id)
      {
        if SameSong(queue[i], platform, id) {
          return;
        }
        i := i + 1;
      }
      queue := queue + [Song(platform, id, name, artist)];
    }

    /** `removeFromQueue(index)`. */
    method RemoveFromQueue(index: int)
      modifies this
      ensures (queue, current) == RemovedAt(old(queue), old(current), index)
      ensures mode == old(mode)
    {
      if 0 <= index < |queue| {
        queue := queue[..index] + queue[index + 1..];
        if current >= index {
          current := current - 1;
        }
      }
    }

    /** `clearQueue()`. */
    method ClearQueue()
      modifies this
      ensures queue == [] && current == -1 && mode == old(mode)
    {
      queue := [];
      current := -1;
    }

    /** The `drop` handler: nothing without a drag in progress or when the
        song is dropped on itself. */
    method Drop(dragged: Option<nat>, drop: nat)
      requires dragged.Some? ==> dragged.value < |queue|
      requires drop < |queue|
      modifies this
      ensures dragged.None? || dragged.value == drop ==> queue == old(queue) && current == old(current)
      ensures dragged.Some? && dragged.value != drop ==>
        (queue, current) == Reordered(old(queue), old(current), dragged.value, drop)
      ensures mode == old(mode)
    {
      if dragged.Some? && dragged.value != drop {
        var d := dragged.value;
        var song := queue[d];
        queue := queue[..d] + queue[d + 1..];
        var newIndex := if d < drop then drop - 1 else drop;
        queue := queue[..newIndex] + [song] + queue[newIndex..];
        if current == d {
          current := newIndex;
        } else if current > d && current <= newIndex {
          current := current - 1;
        } else if current < d && current >= newIndex {
          current := current + 1;
        }
      }
    }

    /** `playNext()`; `pick` stands for `Math.floor(Math.random() * length)`. */
    method PlayNext(pick: nat)
      requires mode == Random && |queue| > 0 ==> pick < |queue|
      modifies this
      ensures current == NextIndex(old(queue), old(current), old(mode), pick)
      ensures queue == old(queue) && mode == old(mode)
    {
      if |queue| == 0 {
        return;
      }
      var next;
      if mode == Random {
        next := pick;
      } else if mode == Single {
        next := current;
      } else if current >= |queue| - 1 {
        if mode == Loop {
          next := 0;
        } else {
          return;
        }
      } else {
        next := current + 1;
      }
      if 0 <= next < |queue| {
        current := next;
      }
    }

    /** `playPrevious()`. */
    method PlayPrevious(pick: nat)
      requires mode == Random && |queue| > 0 ==> pick < |queue|
      modifies this
      ensures current == PreviousIndex(old(queue), old(current), old(mode), pick)
      ensures queue == old(queue) && mode == old(mode)
    {
      if |queue| == 0 {
        return;
      }
      var next;
      if mode == Random {
        next := pick;
      } else if current <= 0 {
        if mode == Loop {
          next := |queue| - 1;
        } else {
          return;
        }
      } else {
        next := current - 1;
      }
      if 0 <= next < |queue| {
        current := next;
      }
    }

    /** `switchPlayMode()`. */
    method SwitchPlayMode()
      modifies this
      ensures mode == NextMode(old(mode))
      ensures queue == old(queue) && current == old(current)
    {
      var k := IndexOf(Modes, mode);
      mode := Modes[(k + 1) % |Modes|];
    }
  }

  // ----- properties -----

  /** Adding leaves the queue alone exactly when the key is queued, and
      otherwise appends the song; the queue never gains a duplicate key. */
  lemma AddedSpec(q: seq<Song>, s: Song)
    ensures Queued(q, s.platform, s.id) <==> Added(q, s) == q
    ensures !Queued(q, s.platform, s.id) ==> Added(q, s) == q + [s]
    ensures NoDuplicates(q) ==> NoDuplicates(Added(q, s))
  {
    if !Queued(q, s.platform, s.id) {
      assert |q + [s]| != |q|;
      var r := q + [s];
      if NoDuplicates(q) {
        forall i, j | 0 <= i < j < |r|
          ensures !SameSong(r[j], r[i].platform, r[i].id)
        {
          if j == |q| {
            assert !SameSong(q[i], s.platform, s.id);
            SameSongSymmetric(q[i], s);
          }
        }
      }
    }
  }

  lemma SameSongSymmetric(a: Song, b: Song)
    ensures SameSong(a, b.platform, b.id) <==> SameSong(b, a.platform, a.id)
  {
  }

  /** An index out of range changes nothing; otherwise the song at it goes,
      the queue shrinks by one, the index stays in range and, unless the
      current song was the one removed, it still points at the same song. */
  lemma RemovedAtSpec(q: seq<Song>, c: int, index: int)
    requires InRange(q, c)
    ensures var (q', c') := RemovedAt(q, c, index);
      && (!(0 <= index < |q|) ==> q' == q && c' == c)
      && (0 <= index < |q| ==>
            && |q'| == |q| - 1
            && (forall k :: 0 <= k < |q'| ==> q'[k] == if k < index then q[k] else q[k + 1])
            && InRange(q', c')
            && (0 <= c && c != index ==> q'[c'] == q[c])
            && (c == index ==> c' == index - 1))
  {
  }

  /** Where each song of the moved queue comes from. */
  lemma MovedAt(q: seq<Song>, dragged: nat, newIndex: nat, k: nat)
    requires dragged < |q| && newIndex < |q| && k < |q|
    ensures |Moved(q, dragged, newIndex)| == |q|
    ensures Moved(q, dragged, newIndex)[k] ==
      if k == newIndex then q[dragged]
      else if k < newIndex then (if k < dragged then q[k] else q[k + 1])
      else (if k - 1 < dragged then q[k - 1] else q[k])
  {
  }

  /** Moving a song keeps every song. */
  lemma MovedPermutation(q: seq<Song>, dragged: nat, newIndex: nat)
    requires dragged < |q| && newIndex < |q|
    ensures multiset(Moved(q, dragged, newIndex)) == multiset(q)
  {
    var rest := q[..dragged] + q[dragged + 1..];
    assert q == q[..dragged] + [q[dragged]] + q[dragged + 1..];
    assert multiset(q) == multiset(rest) + multiset{q[dragged]};
    assert rest == rest[..newIndex] + rest[newIndex..];
    assert multiset(rest) == multiset(rest[..newIndex]) + multiset(rest[newIndex..]);
  }

  /** The drop reorder keeps the songs, puts the dragged one at `newIndex`,
      and keeps the index in range and on the song that was current. */
  lemma ReorderedSpec(q: seq<Song>, c: int, dragged: nat, drop: nat)
    requires dragged < |q| && drop < |q| && InRange(q, c)
    ensures var (q', c') := Reordered(q, c, dragged, drop);
      && |q'| == |q| && multiset(q') == multiset(q)
      && q'[NewIndex(dragged, drop)] == q[dragged]
      && InRange(q', c')
      && (c == dragged ==> c' == NewIndex(dragged, drop))
      && (0 <= c ==> q'[c'] == q[c])
  {
    var n := NewIndex(dragged, drop);
    var (q', c') := Reordered(q, c, dragged, drop);
    MovedPermutation(q, dragged, n);
    MovedAt(q, dragged, n, n);
    if 0 <= c {
      MovedAt(q, dragged, n, c');
    }
  }

  /** As written, a forward drag onto the current song moves the index off
      it: with [A, B, C] playing C, dragging A onto C gives [B, A, C] with
      the index on A. */
  lemma ReorderedAsWrittenLosesCurrent(a: Song, b: Song, cc: Song)
    requires a != cc
    ensures var (q', c') := ReorderedAsWritten([a, b, cc], 2, 0, 2);
      q' == [b, a, cc] && c' == 1 && q'[c'] != cc
  {
    var q := [a, b, cc];
    assert q[..0] + q[1..] == [b, cc];
    assert [b, cc][..1] + [a] + [b, cc][1..] == [b, a, cc];
  }

  /** That case is the only one: everywhere else the two agree. */
  lemma ReorderedAsWrittenElsewhere(q: seq<Song>, c: int, dragged: nat, drop: nat)
    requires dragged < |q| && drop < |q|
    requires !(dragged < drop && c == drop)
    ensures ReorderedAsWritten(q, c, dragged, drop) == Reordered(q, c, dragged, drop)
  {
  }

  /** `playNext` per mode: an empty queue and single mode keep the index;
      random goes to the pick; at the last song loop wraps to the first and
      the other modes stop; otherwise it advances by one. */
  lemma NextIndexSpec(q: seq<Song>, c: int, mode: string, pick: nat)
    requires InRange(q, c) && (mode == Random && |q| > 0 ==> pick < |q|)
    ensures var c' := NextIndex(q, c, mode, pick);
      && InRange(q, c')
      && (|q| == 0 ==> c' == c)
      && (|q| > 0 && mode == Random ==> c' == pick)
      && (mode == Single ==> c' == c)
      && (|q| > 0 && mode != Random && mode != Single && c == |q| - 1 ==> c' == (if mode == Loop then 0 else c))
      && (mode != Random && mode != Single && c < |q| - 1 ==> c' == c + 1)
  {
  }

  /** `playPrevious` per mode: an empty queue keeps the index; random goes
      to the pick; at the first song (or none) loop wraps to the last and the
      other modes stop; otherwise, single mode included, it steps back one. */
  lemma PreviousIndexSpec(q: seq<Song>, c: int, mode: string, pick: nat)
    requires InRange(q, c) && (mode == Random && |q| > 0 ==> pick < |q|)
    ensures var c' := PreviousIndex(q, c, mode, pick);
      && InRange(q, c')
      && (|q| == 0 ==> c' == c)
      && (|q| > 0 && mode == Random ==> c' == pick)
      && (|q| > 0 && mode != Random && c <= 0 ==> c' == (if mode == Loop then |q| - 1 else c))
      && (|q| > 0 && mode != Random && c > 0 ==> c' == c - 1)
  {
  }
}
