/** The client's search history: the last ten keywords, most recent first,
    deduplicated case-insensitively, kept in the browser's storage. Whether
    the storage accepts the write is a parameter. */
module SearchHistory {

  import opened JsText
  import opened Subsequences

  const MaxSearchHistory: nat := 10

  /** `history.filter(item => item.toLowerCase() !== keyword.toLowerCase())`. */
  function DropSame(history: seq<string>, keyword: string): seq<string>
    decreases |history|
  {
    if history == [] then []
    else
      var last := history[|history| - 1];
      DropSame(history[..|history| - 1], keyword) + (if Lower(last) != Lower(keyword) then [last] else [])
  }

  /** The filter keeps entries in their order. */
  lemma {:induction false} DropSameOrder(history: seq<string>, keyword: string)
    ensures Subsequence(DropSame(history, keyword), history)
    decreases |history|
  {
    if history != [] {
      var init, last := history[..|history| - 1], history[|history| - 1];
      DropSameOrder(init, keyword);
      assert history == init + [last];
      if Lower(last) != Lower(keyword) {
        SubsequenceAppend(DropSame(init, keyword), init, last);
      } else {
        assert DropSame(history, keyword) == DropSame(init, keyword);
        SubsequenceGrow(DropSame(init, keyword), init, last);
      }
    }
  }

  /** The filter keeps exactly the entries that differ from the keyword
      case-insensitively. */
  lemma {:induction false} DropSameMembers(history: seq<string>, keyword: string)
    ensures forall h :: h in DropSame(history, keyword) <==> h in history && Lower(h) != Lower(keyword)
    decreases |history|
  {
    if history != [] {
      var init, last := history[..|history| - 1], history[|history| - 1];
      DropSameMembers(init, keyword);
      assert history == init + [last];
    }
  }

  /** The filter keeps every occurrence of an entry that differs from the
      keyword case-insensitively, and no occurrence of the others. */
  lemma {:induction false} DropSameCounts(history: seq<string>, keyword: string)
    ensures forall h :: multiset(DropSame(history, keyword))[h] == (if Lower(h) != Lower(keyword) then multiset(history)[h] else 0)
    decreases |history|
  {
    if history != [] {
      var init, last := history[..|history| - 1], history[|history| - 1];
      DropSameCounts(init, keyword);
      assert history == init + [last];
      assert multiset(history) == multiset(init) + multiset{last};
    }
  }

  /** The filter keeps exactly the entries that differ from the keyword
      case-insensitively, each as often as it occurs, in their order. */
  lemma DropSameSpec(history: seq<string>, keyword: string)
    ensures var r := DropSame(history, keyword);
      && Subsequence(r, history)
      && (forall h :: h in r <==> h in history && Lower(h) != Lower(keyword))
      && (forall h :: multiset(r)[h] == if Lower(h) != Lower(keyword) then multiset(history)[h] else 0)
  {
    DropSameOrder(history, keyword);
    DropSameMembers(history, keyword);
    DropSameCounts(history, keyword);
  }

  function Min(a: nat, b: nat): nat {
    if a < b then a else b
  }

  /** A keyword with nothing but whitespace: `!keyword || !keyword.trim()`. */
  predicate Blank(keyword: string) {
    keyword == "" || Trim(keyword) == ""
  }

  /** The list `saveSearchHistory(keyword)` stores. */
  function Saved(history: seq<string>, keyword: string): seq<string> {
    if Blank(keyword) then history
    else
      var h := [Trim(keyword)] + DropSame(history, keyword);
      if |h| > MaxSearchHistory then h[..MaxSearchHistory] else h
  }

  /** The stored history. */
  class SearchStore {
    var saved: seq<string>

    constructor ()
      ensures saved == []
    {
      saved := [];
    }

    /** `saveSearchHistory(keyword)`; a failing `setItem` is caught and
        leaves the stored list as it was. */
    method Save(keyword: string, storable: bool)
      modifies this
      ensures saved == if storable then Saved(old(saved), keyword) else old(saved)
    {
      if keyword == "" || Trim(keyword) == "" {
        return;
      }
      var history := saved;
      history := DropSame(history, keyword);
      history := [Trim(keyword)] + history;
      if |history| > MaxSearchHistory {
        history := history[..MaxSearchHistory];
      }
      if storable {
        saved := history;
      }
    }
  }

  /** A blank keyword changes nothing. */
  lemma SavedBlank(history: seq<string>, keyword: string)
    requires Blank(keyword)
    ensures Saved(history, keyword) == history
  {
  }

  /** Otherwise the trimmed keyword heads the list, no later entry equals the
      keyword case-insensitively, the later entries are earlier ones in
      their order, and the list holds at most ten entries: the newest
      nine entries the filter keeps. */
  lemma SavedSpec(history: seq<string>, keyword: string)
    requires !Blank(keyword)
    ensures var r := Saved(history, keyword);
      && 1 <= |r| <= MaxSearchHistory
      && r[0] == Trim(keyword)
      && (forall i :: 1 <= i < |r| ==> Lower(r[i]) != Lower(keyword))
      && Subsequence(r[1..], history)
      && (|history| < MaxSearchHistory ==>
            forall h :: h in history && Lower(h) != Lower(keyword) ==> h in r)
      && |r| - 1 == Min(|DropSame(history, keyword)|, MaxSearchHistory - 1)
      && r[1..] == DropSame(history, keyword)[..|r| - 1]
  {
    var kept, r := DropSame(history, keyword), Saved(history, keyword);
    SavedShape(history, keyword);
    DropSameOrder(history, keyword);
    DropSameMembers(history, keyword);
    var n := |r| - 1;
    PrefixSubsequence(kept, n, history);
    forall i | 1 <= i < |r|
      ensures Lower(r[i]) != Lower(keyword)
    {
      assert r[i] == kept[i - 1];
      assert kept[i - 1] in kept;
    }
    if |history| < MaxSearchHistory {
      SubsequenceLength(kept, history);
      assert r[1..] == kept;
      forall x | x in history && Lower(x) != Lower(keyword)
        ensures x in r
      {
        assert x in r[1..];
      }
    }
  }

  /** The saved list is the trimmed keyword followed by the first entries
      the filter keeps, as many as fit under the cap. */
  lemma SavedShape(history: seq<string>, keyword: string)
    requires !Blank(keyword)
    ensures var r, kept := Saved(history, keyword), DropSame(history, keyword);
      && |r| == 1 + Min(|kept|, MaxSearchHistory - 1)
      && r[0] == Trim(keyword)
      && r[1..] == kept[..|r| - 1]
  {
    var kept := DropSame(history, keyword);
    var h := [Trim(keyword)] + kept;
    if |h| > MaxSearchHistory {
      assert h[..MaxSearchHistory][1..] == kept[..MaxSearchHistory - 1];
    } else {
      assert h[1..] == kept;
    }
  }

  /** For a trimmed keyword, as the search box passes it, the head is the
      only entry equal to it case-insensitively. */
  lemma SavedTrimmedUnique(history: seq<string>, keyword: string)
    requires !Blank(keyword) && IsTrimmed(keyword)
    ensures var r := Saved(history, keyword);
      r[0] == keyword && forall i :: 1 <= i < |r| ==> Lower(r[i]) != Lower(r[0])
  {
    SavedSpec(history, keyword);
    TrimOfTrimmed(keyword);
  }

  /** The dedup compares with the untrimmed keyword while the trimmed one is
      stored: saving " Foo" over ["foo"] keeps both. */
  lemma UntrimmedKeywordKeepsDuplicate()
    ensures Saved(["foo"], " Foo") == ["Foo", "foo"]
  {
    assert TrimStart(" Foo") == "Foo";
    assert TrimEnd("Foo") == "Foo";
    assert Lower("foo") == "foo";
    assert Lower(" Foo") == " foo";
    assert DropSame(["foo"], " Foo") == ["foo"] by {
      assert ["foo"][..0] == [];
    }
  }
}
