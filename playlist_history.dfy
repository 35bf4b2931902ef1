/** The persisted playlist history: a most-recent-first list of
    `{ platform, id, name, author, timestamp }` records kept in one JSON
    file, deduplicated by `(platform, id)` and capped at 100 entries. Every
    operation reads the file, changes the list and writes it back. Whether
    the disk accepts writes is a parameter of each call; the clock is the
    `now` parameter. */
module PlaylistHistory {

  import opened Wrappers
  import opened JsValue
  import opened Subsequences

  const MaxHistory: nat := 100

  /** The history file: absent, holding a parsed JSON value, or present
      but not parseable. */
  datatype Stored = Missing | Holds(json: Value) | Unparseable

  /** The record `addToPlaylistHistory` puts at the head. */
  function Record(platform: Value, id: Value, name: Value, author: Value, now: int): Value {
    Obj(map["platform" := platform, "id" := id, "name" := name, "author" := author, "timestamp" := Num(now)])
  }

  /** `item.platform === platform && item.id === id`; reading a property of
      a null or undefined item throws. */
  function SameKey(item: Value, platform: Value, id: Value): Result<bool, string> {
    match Get(item, "platform")
    case Failure(m) => Failure(m)
    case Success(p) =>
      if !StrictEquals(p, platform) then Success(false)
      else match Get(item, "id")
        case Failure(m) => Failure(m)
        case Success(i) => Success(StrictEquals(i, id))
  }

  /** The item has the key `(platform, id)`. */
  predicate HasKey(item: Value, platform: Value, id: Value) {
    SameKey(item, platform, id) == Success(true)
  }

  /** `history.filter(item => !(item.platform === platform && item.id === id))`. */
  function Filter(items: seq<Value>, platform: Value, id: Value): Result<seq<Value>, string>
    decreases |items|
  {
    if items == [] then Success([])
    else match Filter(items[..|items| - 1], platform, id)
      case Failure(m) => Failure(m)
      case Success(kept) =>
        var last := items[|items| - 1];
        match SameKey(last, platform, id)
        case Failure(m) => Failure(m)
        case Success(same) => Success(if same then kept else kept + [last])
  }


  /** Some item is null or undefined. */
  predicate HasNullish(items: seq<Value>) {
    exists i :: 0 <= i < |items| && (items[i].Null? || items[i].Undefined?)
  }

  /** Testing an item's key throws exactly when the item is null or undefined. */
  lemma SameKeyThrows(item: Value, platform: Value, id: Value)
    ensures SameKey(item, platform, id).Failure? <==> item.Null? || item.Undefined?
  {
  }

  /** The filter of a list with one more item at its end. */
  lemma FilterLast(init: seq<Value>, last: Value, platform: Value, id: Value)
    ensures Filter(init + [last], platform, id) ==
      match Filter(init, platform, id)
      case Failure(m) => Failure(m)
      case Success(kept) =>
        match SameKey(last, platform, id)
        case Failure(m) => Failure(m)
        case Success(same) => Success(if same then kept else kept + [last])
  {
    assert (init + [last])[..|init|] == init;
  }

  lemma NullishLast(init: seq<Value>, last: Value)
    ensures HasNullish(init + [last]) <==> HasNullish(init) || last.Null? || last.Undefined?
  {
    var items := init + [last];
    if HasNullish(init) {
      var i :| 0 <= i < |init| && (init[i].Null? || init[i].Undefined?);
      assert items[i] == init[i];
    }
    if HasNullish(items) {
      var i :| 0 <= i < |items| && (items[i].Null? || items[i].Undefined?);
      if i < |init| {
        assert init[i] == items[i];
      }
    }
    assert items[|init|] == last;
  }

  /** The filter throws exactly when some item is null or undefined. */
  lemma {:induction false} FilterThrows(items: seq<Value>, platform: Value, id: Value)
    ensures Filter(items, platform, id).Failure? <==> HasNullish(items)
    decreases |items|
  {
    if items != [] {
      var init, last := items[..|items| - 1], items[|items| - 1];
      assert items == init + [last];
      FilterThrows(init, platform, id);
      FilterLast(init, last, platform, id);
      NullishLast(init, last);
      SameKeyThrows(last, platform, id);
    }
  }

  /** `kept` holds exactly the items of `items` without the key. */
  ghost predicate KeptExactly(kept: seq<Value>, items: seq<Value>, platform: Value, id: Value) {
    forall v :: v in kept <==> v in items && !HasKey(v, platform, id)
  }

  lemma KeptDrop(kept: seq<Value>, init: seq<Value>, last: Value, platform: Value, id: Value)
    requires KeptExactly(kept, init, platform, id) && HasKey(last, platform, id)
    ensures KeptExactly(kept, init + [last], platform, id)
  {
    forall v
      ensures v in kept <==> v in init + [last] && !HasKey(v, platform, id)
    {
      assert v in init + [last] <==> v in init || v == last;
    }
  }

  lemma KeptKeep(kept: seq<Value>, init: seq<Value>, last: Value, platform: Value, id: Value)
    requires KeptExactly(kept, init, platform, id) && !HasKey(last, platform, id)
    ensures KeptExactly(kept + [last], init + [last], platform, id)
  {
    forall v
      ensures v in kept + [last] <==> v in init + [last] && !HasKey(v, platform, id)
    {
      assert v in kept + [last] <==> v in kept || v == last;
      assert v in init + [last] <==> v in init || v == last;
    }
  }

  /** When it does not throw, the filter keeps exactly the items without
      the key, in their order. */
  lemma {:induction false} FilterKeeps(items: seq<Value>, platform: Value, id: Value)
    requires Filter(items, platform, id).Success?
    ensures Subsequence(Filter(items, platform, id).value, items)
    ensures KeptExactly(Filter(items, platform, id).value, items, platform, id)
    decreases |items|
  {
    if items != [] {
      var init, last := items[..|items| - 1], items[|items| - 1];
      assert items == init + [last];
      FilterLast(init, last, platform, id);
      FilterKeeps(init, platform, id);
      var kept := Filter(init, platform, id).value;
      if HasKey(last, platform, id) {
        SubsequenceGrow(kept, init, last);
        KeptDrop(kept, init, last, platform, id);
      } else {
        SubsequenceAppend(kept, init, last);
        KeptKeep(kept, init, last, platform, id);
      }
    }
  }

  /** When it does not throw, the filter keeps every occurrence of an item
      without the key and no occurrence of the others. */
  lemma {:induction false} FilterCounts(items: seq<Value>, platform: Value, id: Value)
    requires Filter(items, platform, id).Success?
    ensures var kept := Filter(items, platform, id).value;
      forall v :: multiset(kept)[v] == (if HasKey(v, platform, id) then 0 else multiset(items)[v])
    decreases |items|
  {
    if items != [] {
      var init, last := items[..|items| - 1], items[|items| - 1];
      assert items == init + [last];
      FilterLast(init, last, platform, id);
      FilterCounts(init, platform, id);
      assert multiset(items) == multiset(init) + multiset{last};
    }
  }

  /** Every item the filter keeps tests as having another key. */
  lemma {:induction false} KeptNoMatch(items: seq<Value>, platform: Value, id: Value)
    requires Filter(items, platform, id).Success?
    ensures var kept := Filter(items, platform, id).value;
      forall k :: 0 <= k < |kept| ==> SameKey(kept[k], platform, id) == Success(false)
    decreases |items|
  {
    if items != [] {
      var init, last := items[..|items| - 1], items[|items| - 1];
      assert items == init + [last];
      FilterLast(init, last, platform, id);
      KeptNoMatch(init, platform, id);
      var kept := Filter(init, platform, id).value;
      assert forall k :: 0 <= k < |kept| ==> (kept + [last])[k] == kept[k];
    }
  }

  /** The filter throws exactly on a null or undefined item; otherwise it
      keeps exactly the items without the key, each as often as it occurs,
      in their order. */
  lemma FilterSpec(items: seq<Value>, platform: Value, id: Value)
    ensures Filter(items, platform, id).Failure? <==> exists i :: 0 <= i < |items| && (items[i].Null? || items[i].Undefined?)
    ensures Filter(items, platform, id).Success? ==> var kept := Filter(items, platform, id).value;
      && Subsequence(kept, items)
      && (forall v :: v in kept <==> v in items && !HasKey(v, platform, id))
      && (forall v :: multiset(kept)[v] == (if HasKey(v, platform, id) then 0 else multiset(items)[v]))
  {
    FilterThrows(items, platform, id);
    if Filter(items, platform, id).Success? {
      FilterKeeps(items, platform, id);
      FilterCounts(items, platform, id);
    }
  }

  /** `ensureHistoryFile()` then `JSON.parse(readFileSync(...))`, with the
      catch that returns []. A missing file is created holding [] when the
      disk accepts writes. */
  function Read(stored: Stored, writable: bool): (Stored, Value) {
    match stored
    case Missing => (if writable then Holds(Arr([])) else Missing, Arr([]))
    case Holds(json) => (stored, json)
    case Unparseable => (stored, Arr([]))
  }

  /** The file and the result after `addToPlaylistHistory`. */
  function Added(stored: Stored, writable: bool, platform: Value, id: Value, name: Value, author: Value, now: int): (Stored, bool) {
    if !writable then (stored, false)
    else
      var (s1, history) := Read(stored, writable);
      if !history.Arr? then (s1, false)
      else match Filter(history.items, platform, id)
        case Failure(_) => (s1, false)
        case Success(kept) =>
          (Holds(Arr(Capped([Record(platform, id, name, author, now)] + kept))), true)
  }

  /** `history.slice(0, MAX_HISTORY)` when the list is too long. */
  function Capped(h: seq<Value>): (r: seq<Value>)
    ensures |r| <= |h| && |r| <= MaxHistory && r == h[..|r|]
    ensures |h| <= MaxHistory ==> r == h
  {
    if |h| > MaxHistory then h[..MaxHistory] else h
  }

  /** The write `addToPlaylistHistory` makes once the list has been read
      and filtered. */
  lemma AddedWrites(stored: Stored, writable: bool, platform: Value, id: Value, name: Value, author: Value, now: int,
                    history: Value, kept: seq<Value>)
    requires writable && Read(stored, writable).1 == history && history.Arr?
    requires Filter(history.items, platform, id) == Success(kept)
    ensures Added(stored, writable, platform, id, name, author, now) == (Holds(Arr(Capped([Record(platform, id, name, author, now)] + kept))), true)
  {
  }

  /** When the read value is not an array or the filter throws, only the
      read's own effect remains. */
  lemma AddedFails(stored: Stored, writable: bool, platform: Value, id: Value, name: Value, author: Value, now: int)
    requires writable
    requires var history := Read(stored, writable).1;
      !history.Arr? || Filter(history.items, platform, id).Failure?
    ensures Added(stored, writable, platform, id, name, author, now) == (Read(stored, writable).0, false)
  {
  }

  /** The file and the result after `removePlaylistHistoryItem`. */
  function Removed(stored: Stored, writable: bool, platform: Value, id: Value): (Stored, bool) {
    if !writable then (stored, false)
    else
      var (s1, history) := Read(stored, writable);
      if !history.Arr? then (s1, false)
      else match Filter(history.items, platform, id)
        case Failure(_) => (s1, false)
        case Success(kept) => (Holds(Arr(kept)), true)
  }

  /** The file and the result after `clearPlaylistHistory`. */
  function Cleared(stored: Stored, writable: bool): (Stored, bool) {
    if writable then (Holds(Arr([])), true) else (stored, false)
  }

  /** The history file as the module's four functions see it. */
  class HistoryFile {
    var stored: Stored

    constructor (initial: Stored)
      ensures stored == initial
    {
      stored := initial;
    }

    /** `getPlaylistHistory()`. */
    method GetHistory(writable: bool) returns (history: Value)
      modifies this
      ensures (stored, history) == Read(old(stored), writable)
    {
      if stored.Missing? {
        if writable {
          stored := Holds(Arr([]));
        }
        return Arr([]);
      }
      if stored.Unparseable? {
        return Arr([]);
      }
      history := stored.json;
    }

    /** `addToPlaylistHistory(platform, id, name, author)` at time `now`. */
    method Add(writable: bool, platform: Value, id: Value, name: Value, author: Value, now: int) returns (ok: bool)
      modifies this
      ensures (stored, ok) == Added(old(stored), writable, platform, id, name, author, now)
    {
      ghost var before := stored;
      ok := false;
      if writable {
        var history := GetHistory(writable);
        if history.Arr? {
          var kept := Filter(history.items, platform, id);
          if kept.Success? {
            var h := kept.value;
            h := [Record(platform, id, name, author, now)] + h;
            ghost var full := h;
            if |h| > MaxHistory {
              h := h[..MaxHistory];
            }
            assert h == Capped(full);
            stored := Holds(Arr(h));
            ok := true;
            AddedWrites(before, writable, platform, id, name, author, now, history, kept.value);
          } else {
            AddedFails(before, writable, platform, id, name, author, now);
          }
        } else {
          AddedFails(before, writable, platform, id, name, author, now);
        }
      }
    }

    /** `removePlaylistHistoryItem(platform, id)`. */
    method Remove(writable: bool, platform: Value, id: Value) returns (ok: bool)
      modifies this
      ensures (stored, ok) == Removed(old(stored), writable, platform, id)
    {
      if !writable {
        return false;
      }
      var history := GetHistory(writable);
      if !history.Arr? {
        return false;
      }
      var kept := Filter(history.items, platform, id);
      if kept.Failure? {
        return false;
      }
      stored := Holds(Arr(kept.value));
      return true;
    }

    /** `clearPlaylistHistory()`. */
    method Clear(writable: bool) returns (ok: bool)
      modifies this
      ensures (stored, ok) == Cleared(old(stored), writable)
    {
      if !writable {
        return false;
      }
      stored := Holds(Arr([]));
      return true;
    }
  }

  // ----- properties -----

  /** `b` has the key that `a` carries. */
  predicate KeyClash(a: Value, b: Value) {
    Get(a, "platform").Success? && Get(a, "id").Success?
    && HasKey(b, Get(a, "platform").value, Get(a, "id").value)
  }

  /** Entries that carry a key and no two with the same one. */
  predicate KeysUnique(items: seq<Value>) {
    forall i, j :: 0 <= i < j < |items| ==> !KeyClash(items[i], items[j])
  }

  /** Reading never fails: a missing or unparseable file reads as []. */
  lemma ReadSpec(stored: Stored, writable: bool)
    ensures var (s', history) := Read(stored, writable);
      && (stored.Missing? || stored.Unparseable? ==> history == Arr([]))
      && (stored.Holds? ==> history == stored.json && s' == stored)
      && (stored.Missing? ==> (s' == Holds(Arr([])) <==> writable) && (!writable ==> s' == Missing))
  {
  }

  function Min(a: nat, b: nat): nat {
    if a < b then a else b
  }

  /** The list the add writes is the record followed by the first 99 of
      the kept entries, and all of them when fewer than 100 were kept. */
  lemma CappedCons(rec: Value, kept: seq<Value>)
    ensures var h := Capped([rec] + kept);
      && 1 <= |h| <= MaxHistory && h[0] == rec && h[1..] == kept[..|h| - 1]
      && |h| - 1 == Min(|kept|, MaxHistory - 1)
      && (|kept| < MaxHistory ==> h[1..] == kept)
  {
    var h := [rec] + kept;
    if |h| > MaxHistory {
      assert Capped(h)[1..] == kept[..MaxHistory - 1];
    } else {
      assert h[1..] == kept;
    }
  }

  /** What the written list holds, in terms of the list that was read. */
  lemma AddedList(items: seq<Value>, platform: Value, id: Value, rec: Value, kept: seq<Value>)
    requires Filter(items, platform, id) == Success(kept)
    ensures var h := Capped([rec] + kept);
      && 1 <= |h| <= MaxHistory
      && h[0] == rec
      && Subsequence(h[1..], items)
      && (forall v :: v in h[1..] ==> !HasKey(v, platform, id))
      && (forall v :: v in items && !HasKey(v, platform, id) && |items| < MaxHistory ==> v in h[1..])
  {
    var h := Capped([rec] + kept);
    CappedCons(rec, kept);
    var n := |h| - 1;
    assert Subsequence(h[1..], items) by {
      FilterKeeps(items, platform, id);
      PrefixSubsequence(kept, n, items);
    }
    assert forall v :: v in h[1..] ==> !HasKey(v, platform, id) by {
      FilterKeeps(items, platform, id);
      PrefixMembers(kept, n);
    }
    assert |items| < MaxHistory ==> h[1..] == kept by {
      FilterKeeps(items, platform, id);
      SubsequenceLength(kept, items);
    }
    assert forall v :: v in items && !HasKey(v, platform, id) && |items| < MaxHistory ==> v in h[1..] by {
      FilterKeeps(items, platform, id);
    }
  }

  /** Every element of a prefix is an element of the sequence. */
  lemma PrefixMembers(s: seq<Value>, n: nat)
    requires n <= |s|
    ensures forall v :: v in s[..n] ==> v in s
  {
    forall v | v in s[..n]
      ensures v in s
    {
      var k :| 0 <= k < n && s[..n][k] == v;
      assert s[k] == v;
    }
  }

  /** A successful add writes a list headed by the new record, followed by
      the first 99 old entries without the key, in their order; it
      succeeds exactly when the disk accepts writes, the file holds an array
      (or is missing or unparseable) and no entry is null or undefined. */
  lemma AddSpec(stored: Stored, writable: bool, platform: Value, id: Value, name: Value, author: Value, now: int)
    ensures var (s', ok) := Added(stored, writable, platform, id, name, author, now);
      var old_ := Read(stored, writable).1;
      && (ok <==> writable && old_.Arr? && forall i :: 0 <= i < |old_.items| ==> !old_.items[i].Null? && !old_.items[i].Undefined?)
      && (ok ==> (s'.Holds? && s'.json.Arr?
            && var h := s'.json.items;
            && 1 <= |h| <= MaxHistory
            && h[0] == Record(platform, id, name, author, now)
            && Subsequence(h[1..], old_.items)
            && (forall v :: v in h[1..] ==> !HasKey(v, platform, id))
            && (forall v :: v in old_.items && !HasKey(v, platform, id) && |old_.items| < MaxHistory ==> v in h[1..])
            && |h| - 1 == Min(|Filter(old_.items, platform, id).value|, MaxHistory - 1)
            && h[1..] == Filter(old_.items, platform, id).value[..|h| - 1]))
      && (!ok ==> s' == stored || (stored.Missing? && s' == Holds(Arr([]))))
  {
    var history := Read(stored, writable).1;
    if writable {
      if history.Arr? {
        FilterThrows(history.items, platform, id);
        var r := Filter(history.items, platform, id);
        if r.Success? {
          AddedWrites(stored, writable, platform, id, name, author, now, history, r.value);
          AddedList(history.items, platform, id, Record(platform, id, name, author, now), r.value);
          CappedCons(Record(platform, id, name, author, now), r.value);
        } else {
          AddedFails(stored, writable, platform, id, name, author, now);
        }
      } else {
        AddedFails(stored, writable, platform, id, name, author, now);
      }
    }
  }

  /** The record carries the key it was built with. */
  lemma RecordKey(platform: Value, id: Value, name: Value, author: Value, now: int)
    ensures Get(Record(platform, id, name, author, now), "platform") == Success(platform)
    ensures Get(Record(platform, id, name, author, now), "id") == Success(id)
    ensures IsPrimitive(platform) && IsPrimitive(id) ==> HasKey(Record(platform, id, name, author, now), platform, id)
  {
  }

  /** Putting an entry whose key no other entry has in front of a list with
      unique keys keeps them unique. */
  lemma ConsUnique(rec: Value, t: seq<Value>, platform: Value, id: Value)
    requires Get(rec, "platform") == Success(platform) && Get(rec, "id") == Success(id)
    requires KeysUnique(t) && forall k :: 0 <= k < |t| ==> !HasKey(t[k], platform, id)
    ensures KeysUnique([rec] + t)
  {
    var h := [rec] + t;
    forall i, j | 0 <= i < j < |h|
      ensures !KeyClash(h[i], h[j])
    {
      assert h[j] == t[j - 1];
      if i > 0 {
        assert h[i] == t[i - 1];
      }
    }
  }

  /** The written list has the key only at its head, and keeps unique keys unique. */
  lemma AddedUnique(items: seq<Value>, platform: Value, id: Value, rec: Value, kept: seq<Value>)
    requires Filter(items, platform, id) == Success(kept)
    requires Get(rec, "platform") == Success(platform) && Get(rec, "id") == Success(id)
    ensures var h := Capped([rec] + kept);
      && (forall i :: 0 < i < |h| ==> !HasKey(h[i], platform, id))
      && (KeysUnique(items) ==> KeysUnique(h))
  {
    CappedCons(rec, kept);
    var h := Capped([rec] + kept);
    var n := |h| - 1;
    assert forall k :: 0 <= k < n ==> !HasKey(kept[..n][k], platform, id) by {
      KeptNoMatch(items, platform, id);
    }
    assert h == [rec] + kept[..n];
    if KeysUnique(items) {
      assert KeysUnique(kept[..n]) by {
        FilterKeeps(items, platform, id);
        PrefixSubsequence(kept, n, items);
        SubsequenceUnique(kept[..n], items);
      }
      ConsUnique(rec, kept[..n], platform, id);
    }
  }

  /** With a primitive key, the new head is the only entry with that key,
      and a list whose keys were unique keeps them unique. */
  lemma AddKeepsKeysUnique(stored: Stored, writable: bool, platform: Value, id: Value, name: Value, author: Value, now: int)
    requires IsPrimitive(platform) && IsPrimitive(id)
    ensures var (s', ok) := Added(stored, writable, platform, id, name, author, now);
      ok ==> && HasKey(s'.json.items[0], platform, id)
             && (forall i :: 0 < i < |s'.json.items| ==> !HasKey(s'.json.items[i], platform, id))
             && (KeysUnique(Read(stored, writable).1.items) ==> KeysUnique(s'.json.items))
  {
    var history := Read(stored, writable).1;
    if writable {
      if history.Arr? && Filter(history.items, platform, id).Success? {
        var kept := Filter(history.items, platform, id).value;
        var rec := Record(platform, id, name, author, now);
        AddedWrites(stored, writable, platform, id, name, author, now, history, kept);
        RecordKey(platform, id, name, author, now);
        CappedCons(rec, kept);
        AddedUnique(history.items, platform, id, rec, kept);
      } else {
        AddedFails(stored, writable, platform, id, name, author, now);
      }
    }
  }

  /** Leaving out elements keeps keys unique. */
  lemma {:induction false} SubsequenceUnique(a: seq<Value>, b: seq<Value>)
    requires Subsequence(a, b) && KeysUnique(b)
    ensures KeysUnique(a)
    decreases |b|
  {
    if a != [] && b != [] {
      var a0, b0 := a[..|a| - 1], b[..|b| - 1];
      assert KeysUnique(b0) by {
        assert forall i :: 0 <= i < |b0| ==> b0[i] == b[i];
      }
      if a[|a| - 1] == b[|b| - 1] {
        SubsequenceUnique(a0, b0);
        SubsequenceMembers(a0, b0);
        forall i, j | 0 <= i < j < |a|
          ensures !KeyClash(a[i], a[j])
        {
          if j < |a| - 1 {
            assert a0[i] == a[i] && a0[j] == a[j];
          } else {
            var k :| 0 <= k < |b0| && b0[k] == a0[i];
            assert !KeyClash(b[k], b[|b| - 1]);
            assert b[k] == a[i] && b[|b| - 1] == a[j];
          }
        }
      } else {
        SubsequenceUnique(a, b0);
      }
    }
  }

  /** A successful remove leaves no entry with the key and keeps every
      occurrence of the others, in their order. */
  lemma RemoveSpec(stored: Stored, writable: bool, platform: Value, id: Value)
    ensures var (s', ok) := Removed(stored, writable, platform, id);
      var old_ := Read(stored, writable).1;
      && (ok <==> writable && old_.Arr? && forall i :: 0 <= i < |old_.items| ==> !old_.items[i].Null? && !old_.items[i].Undefined?)
      && (ok ==> (s'.Holds? && s'.json.Arr?
            && Subsequence(s'.json.items, old_.items)
            && (forall v :: v in s'.json.items <==> v in old_.items && !HasKey(v, platform, id))
            && (forall v :: multiset(s'.json.items)[v] == (if HasKey(v, platform, id) then 0 else multiset(old_.items)[v]))))
      && (!ok ==> s' == stored || (stored.Missing? && s' == Holds(Arr([]))))
  {
    var history := Read(stored, writable).1;
    if writable && history.Arr? {
      FilterThrows(history.items, platform, id);
      if Filter(history.items, platform, id).Success? {
        FilterKeeps(history.items, platform, id);
        FilterCounts(history.items, platform, id);
      }
    }
  }

  /** Removing a key twice is removing it once. */
  lemma RemoveIdempotent(stored: Stored, platform: Value, id: Value)
    requires Removed(stored, true, platform, id).1
    ensures Removed(Removed(stored, true, platform, id).0, true, platform, id) == Removed(stored, true, platform, id)
  {
    var history := Read(stored, true).1;
    var kept := Filter(history.items, platform, id).value;
    KeptNoMatch(history.items, platform, id);
    FilterNoMatch(kept, platform, id);
  }

  /** Filtering a list that has no entry with the key keeps it as it is. */
  lemma {:induction false} FilterNoMatch(items: seq<Value>, platform: Value, id: Value)
    requires forall k :: 0 <= k < |items| ==> SameKey(items[k], platform, id) == Success(false)
    ensures Filter(items, platform, id) == Success(items)
    decreases |items|
  {
    if items != [] {
      var init, last := items[..|items| - 1], items[|items| - 1];
      assert items == init + [last];
      assert forall k :: 0 <= k < |init| ==> init[k] == items[k];
      FilterNoMatch(init, platform, id);
      FilterLast(init, last, platform, id);
    }
  }

  /** Clearing writes [] and reports true exactly when the disk accepts writes. */
  lemma ClearSpec(stored: Stored, writable: bool)
    ensures var (s', ok) := Cleared(stored, writable);
      (ok <==> writable) && (ok ==> s' == Holds(Arr([])) && Read(s', writable).1 == Arr([]))
      && (!ok ==> s' == stored)
  {
  }

  /** The add route passes the body's `id` on, so a numeric id is stored as a
      number; the delete route passes the query string's `id`, a string,
      which is never `===` to it: the entry stays. */
  lemma NumericIdSurvivesQueryRemove(platform: string, n: int, name: Value, author: Value, now: int)
    requires platform != ""
    ensures var s1 := Added(Holds(Arr([])), true, Str(platform), Num(n), name, author, now).0;
      var s2 := Removed(s1, true, Str(platform), Str(JsText.IntToString(n))).0;
      s2 == s1 && s1 == Holds(Arr([Record(Str(platform), Num(n), name, author, now)]))
  {
    var rec := Record(Str(platform), Num(n), name, author, now);
    var query := Str(JsText.IntToString(n));
    assert Filter([], Str(platform), Num(n)) == Success([]);
    AddedWrites(Holds(Arr([])), true, Str(platform), Num(n), name, author, now, Arr([]), []);
    assert Capped([rec] + []) == [rec];
    assert SameKey(rec, Str(platform), query) == Success(false) by {
      RecordKey(Str(platform), Num(n), name, author, now);
    }
    FilterNoMatch([rec], Str(platform), query);
  }
}
