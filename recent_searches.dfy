/**
 * The recent-searches list kept by the search modal: clicking a popular search
 * moves its trimmed text to the front of the stored list, which is capped at
 * eight entries.
 */
module RecentSearches {
  import opened Wrappers
  import JsString

  /** The storage key the list is kept under. */
  const StorageKey: string := "recent-searches"
  const MaxRecent: nat := 8

  /** `list.filter(term => term !== searchTerm)`. */
  function Without(list: seq<string>, term: string): (r: seq<string>)
    ensures term !in r
    ensures forall x :: x in r <==> x in list && x != term
    ensures |r| == |list| - multiset(list)[term]
    decreases |list|
  {
    if list == [] then []
    else
      assert list == [list[0]] + list[1..];
      (if list[0] == term then [] else [list[0]]) + Without(list[1..], term)
  }

  /** `list.slice(0, n)`. */
  function Take(list: seq<string>, n: nat): (r: seq<string>)
    ensures |r| == if |list| <= n then |list| else n
    ensures r == list[..|r|]
  {
    if |list| <= n then list else list[..n]
  }

  /** Filter the term out, put it in front, keep the first eight. */
  function Update(list: seq<string>, term: string): (r: seq<string>)
    ensures 1 <= |r| <= MaxRecent
    ensures r[0] == term
  {
    Take([term] + Without(list, term), MaxRecent)
  }

  /** `a` is `b` with some entries deleted, the rest in their original order. */
  ghost predicate IsSubsequence(a: seq<string>, b: seq<string>)
    decreases |b|
  {
    a == [] || (b != [] && ((a[0] == b[0] && IsSubsequence(a[1..], b[1..])) || IsSubsequence(a, b[1..])))
  }

  predicate NoDuplicates(s: seq<string>) {
    forall i, j :: 0 <= i < j < |s| ==> s[i] != s[j]
  }

  lemma {:induction false} WithoutIsSubsequence(list: seq<string>, term: string)
    ensures IsSubsequence(Without(list, term), list)
    decreases |list|
  {
    if list != [] {
      var rest := list[1..];
      WithoutIsSubsequence(rest, term);
      var w := Without(list, term);
      if list[0] == term {
        assert w == Without(rest, term);
      } else {
        assert w[0] == list[0] && w[1..] == Without(rest, term);
      }
    }
  }

  lemma {:induction false} PrefixIsSubsequence(a: seq<string>, b: seq<string>, n: nat)
    requires IsSubsequence(a, b) && n <= |a|
    ensures IsSubsequence(a[..n], b)
    decreases |b|
  {
    if n > 0 {
      if a[0] == b[0] && IsSubsequence(a[1..], b[1..]) {
        PrefixIsSubsequence(a[1..], b[1..], n - 1);
        assert a[..n][1..] == a[1..][..n - 1];
      } else {
        PrefixIsSubsequence(a, b[1..], n);
      }
    }
  }

  lemma {:induction false} WithoutAbsent(list: seq<string>, term: string)
    requires term !in list
    ensures Without(list, term) == list
    decreases |list|
  {
    if list != [] {
      WithoutAbsent(list[1..], term);
    }
  }

  lemma {:induction false} WithoutKeepsNoDuplicates(list: seq<string>, term: string)
    requires NoDuplicates(list)
    ensures NoDuplicates(Without(list, term))
    decreases |list|
  {
    if list != [] {
      var rest := list[1..];
      assert NoDuplicates(rest) by {
        forall i, j | 0 <= i < j < |rest| ensures rest[i] != rest[j] {
          assert rest[i] == list[i + 1] && rest[j] == list[j + 1];
        }
      }
      WithoutKeepsNoDuplicates(rest, term);
      if list[0] != term {
        assert list[0] !in rest by {
          forall j | 0 <= j < |rest| ensures rest[j] != list[0] {
            assert rest[j] == list[j + 1];
          }
        }
        ConsKeepsNoDuplicates(list[0], Without(rest, term));
      }
    }
  }

  lemma ConsKeepsNoDuplicates(x: string, s: seq<string>)
    requires x !in s && NoDuplicates(s)
    ensures NoDuplicates([x] + s)
  {
  }

  /** The term is in the updated list exactly once. */
  lemma UpdateHasTermOnce(list: seq<string>, term: string)
    ensures multiset(Update(list, term))[term] == 1
  {
    var rest := Without(list, term);
    var r := Update(list, term);
    var tail := r[1..];
    assert r == [term] + tail;
    assert tail == rest[..|tail|];
    assert term !in tail;
    assert multiset(r) == multiset([term]) + multiset(tail);
  }

  /**
   * After the first entry come the old entries with every copy of the term removed,
   * in their original order, cut to fit.
   */
  lemma UpdateRest(list: seq<string>, term: string)
    ensures var r := Update(list, term);
      r[1..] == Without(list, term)[..|r| - 1] && IsSubsequence(r[1..], list)
  {
    var r := Update(list, term);
    var rest := Without(list, term);
    assert r[1..] == rest[..|r| - 1];
    WithoutIsSubsequence(list, term);
    PrefixIsSubsequence(rest, list, |r| - 1);
  }

  lemma UpdateKeepsNoDuplicates(list: seq<string>, term: string)
    requires NoDuplicates(list)
    ensures NoDuplicates(Update(list, term))
  {
    var rest := Without(list, term);
    WithoutKeepsNoDuplicates(list, term);
    ConsKeepsNoDuplicates(term, rest);
    var r := Update(list, term);
    assert r == ([term] + rest)[..|r|];
  }

  /** A term already stored once, in a list of at most eight, only moves. */
  lemma UpdatePresentKeepsLength(list: seq<string>, term: string)
    requires multiset(list)[term] == 1 && |list| <= MaxRecent
    ensures |Update(list, term)| == |list|
  {
  }

  /** A new term is put in front, and the oldest entry falls off a list that is full. */
  lemma UpdateNewTerm(list: seq<string>, term: string)
    requires term !in list
    ensures Update(list, term) == Take([term] + list, MaxRecent)
    ensures |list| >= MaxRecent ==> Update(list, term) == [term] + list[..MaxRecent - 1]
  {
    WithoutAbsent(list, term);
  }

  lemma UpdateIdempotent(list: seq<string>, term: string)
    ensures Update(Update(list, term), term) == Update(list, term)
  {
    var r := Update(list, term);
    var tail := r[1..];
    assert r == [term] + tail;
    assert term !in tail by {
      assert tail == Without(list, term)[..|tail|];
    }
    WithoutAbsent(tail, term);
    assert Without(r, term) == tail;
  }

  /** The terms, applied oldest first. */
  function UpdateAll(list: seq<string>, terms: seq<string>): seq<string>
    decreases |terms|
  {
    if terms == [] then list
    else Update(UpdateAll(list, terms[..|terms| - 1]), terms[|terms| - 1])
  }

  function Reverse(s: seq<string>): (r: seq<string>)
    ensures |r| == |s|
    ensures forall i :: 0 <= i < |s| ==> r[i] == s[|s| - 1 - i]
    decreases |s|
  {
    if s == [] then [] else [s[|s| - 1]] + Reverse(s[..|s| - 1])
  }

  lemma TakeCons(x: string, s: seq<string>, n: nat)
    requires n > 0
    ensures Take([x] + Take(s, n), n) == Take([x] + s, n)
  {
  }

  /** Distinct terms clicked into an empty list leave the eight most recent, most recent first. */
  lemma {:induction false} DistinctTermsKeepMostRecent(terms: seq<string>)
    requires NoDuplicates(terms)
    ensures UpdateAll([], terms) == Take(Reverse(terms), MaxRecent)
    decreases |terms|
  {
    if terms != [] {
      var n := |terms| - 1;
      var init, t := terms[..n], terms[n];
      assert NoDuplicates(init) by {
        forall i, j | 0 <= i < j < |init| ensures init[i] != init[j] {
          assert init[i] == terms[i] && init[j] == terms[j];
        }
      }
      DistinctTermsKeepMostRecent(init);
      var prev := Take(Reverse(init), MaxRecent);
      assert t !in prev by {
        forall i | 0 <= i < |prev| ensures prev[i] != t {
          assert prev[i] == init[n - 1 - i] == terms[n - 1 - i];
        }
      }
      calc {
        UpdateAll([], terms);
        Update(UpdateAll([], init), t);
        Update(prev, t);
        { WithoutAbsent(prev, t); }
        Take([t] + prev, MaxRecent);
        { TakeCons(t, Reverse(init), MaxRecent); }
        Take([t] + Reverse(init), MaxRecent);
        { assert Reverse(terms) == [t] + Reverse(init); }
        Take(Reverse(terms), MaxRecent);
      }
    }
  }

  /** Ten distinct terms leave the last eight, newest first. */
  lemma TenDistinctTerms(terms: seq<string>)
    requires |terms| == 10 && NoDuplicates(terms)
    ensures UpdateAll([], terms) == [terms[9], terms[8], terms[7], terms[6], terms[5], terms[4], terms[3], terms[2]]
  {
    DistinctTermsKeepMostRecent(terms);
  }

  lemma MoveToFrontExample()
    ensures Update(["shoes", "bag"], "shoes") == ["shoes", "bag"]
  {
  }

  /** A duplicated entry collapses: the length can shrink. */
  lemma DuplicateShrinks()
    ensures Update(["a", "a"], "a") == ["a"]
  {
  }

  /** The browser's storage as the click handler sees it. */
  class RecentSearchStore {
    /** Whether `Storage` exists at all. */
    const storageAvailable: bool
    /** The decoded value under `StorageKey`; `None` when the key is missing. */
    var entry: Option<seq<string>>

    constructor (storageAvailable: bool, entry: Option<seq<string>>)
      ensures this.storageAvailable == storageAvailable && this.entry == entry
    {
      this.storageAvailable := storageAvailable;
      this.entry := entry;
    }

    /** A click on a popular search whose text element holds `displayText`. */
    method OnPopularItemClick(displayText: string)
      modifies this`entry
      ensures storageAvailable ==>
        entry == Some(Update(old(entry).GetOr([]), JsString.Trim(displayText)))
      ensures storageAvailable ==> entry.value[0] == JsString.Trim(displayText) && |entry.value| <= MaxRecent
      ensures !storageAvailable ==> entry == old(entry)
    {
      var searchTerm := JsString.Trim(displayText);
      if storageAvailable {
        var recentSearches := entry.GetOr([]);
        recentSearches := Without(recentSearches, searchTerm);
        recentSearches := [searchTerm] + recentSearches;
        recentSearches := Take(recentSearches, MaxRecent);
        entry := Some(recentSearches);
      }
    }
  }
}
