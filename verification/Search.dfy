/** Code search by several terms: merged without duplicates, and stopped once there is enough. */
module Search {
  import opened Prelude
  import opened Dialogue

  /** What the toolbox answers: the fragments, and the terms searched for instead of the query. */
  datatype Answer = Answer(fragments: seq<CodeFragment>, expandedTo: seq<string>)

  function LocationsOf(fragments: seq<CodeFragment>, location: CodeFragment -> string): set<string> {
    set i | 0 <= i < |fragments| :: location(fragments[i])
  }

  /** The fragments without those whose location came before. */
  function WithoutRepeats(fragments: seq<CodeFragment>, location: CodeFragment -> string): seq<CodeFragment> {
    if fragments == [] then []
    else
      var earlier := WithoutRepeats(Init(fragments), location);
      if location(Last(fragments)) in LocationsOf(earlier, location) then earlier else earlier + [Last(fragments)]
  }

  /** Everything the first `n` searches return, one after another. */
  function AllFound(search: nat -> seq<CodeFragment>, n: nat): seq<CodeFragment> {
    if n == 0 then [] else AllFound(search, n - 1) + search(n - 1)
  }

  function FirstOf(fragments: seq<CodeFragment>, limit: int): seq<CodeFragment> {
    fragments[..Max(0, Min(limit, |fragments|))]
  }

  lemma FirstOnes(fragments: seq<CodeFragment>, limit: int)
    ensures FirstOf(fragments, limit) <= fragments
    ensures |FirstOf(fragments, limit)|
         == if limit < 0 then 0 else if |fragments| < limit then |fragments| else limit
  {
  }

  lemma {:induction false} RepeatsKeepPrefix(
    a: seq<CodeFragment>, b: seq<CodeFragment>, location: CodeFragment -> string)
    ensures WithoutRepeats(a, location) <= WithoutRepeats(a + b, location)
  {
    if b == [] {
      assert a + b == a;
    } else {
      RepeatsKeepPrefix(a, Init(b), location);
      assert Init(a + b) == a + Init(b);
      hide LocationsOf;
    }
  }

  lemma {:induction false} FoundIsPrefix(search: nat -> seq<CodeFragment>, n: nat, m: nat) returns (rest: seq<CodeFragment>)
    requires n <= m
    ensures AllFound(search, m) == AllFound(search, n) + rest
  {
    if n == m {
      rest := [];
    } else {
      var shorter := FoundIsPrefix(search, n, m - 1);
      rest := shorter + search(m - 1);
      Associates(AllFound(search, n), shorter, search(m - 1));
    }
  }

  /** Having enough after some searches, the rest cannot change the first `limit`. */
  lemma EnoughIsEnough(search: nat -> seq<CodeFragment>, location: CodeFragment -> string, n: nat, m: nat, limit: int)
    requires n <= m && |WithoutRepeats(AllFound(search, n), location)| >= limit
    ensures FirstOf(WithoutRepeats(AllFound(search, n), location), limit)
         == FirstOf(WithoutRepeats(AllFound(search, m), location), limit)
  {
    var rest := FoundIsPrefix(search, n, m);
    RepeatsKeepPrefix(AllFound(search, n), rest, location);
    hide WithoutRepeats, AllFound;
  }

  lemma {:induction false} LocationsAfter(fragments: seq<CodeFragment>, f: CodeFragment, location: CodeFragment -> string)
    ensures LocationsOf(fragments + [f], location) == LocationsOf(fragments, location) + {location(f)}
  {
    var more := fragments + [f];
    forall x | x in LocationsOf(fragments, location) + {location(f)}
      ensures x in LocationsOf(more, location)
    {
      if x == location(f) {
        assert more[|fragments|] == f;
      } else {
        var i :| 0 <= i < |fragments| && location(fragments[i]) == x;
        assert more[i] == fragments[i];
      }
    }
  }

  /** Takes the fragments of one more search into what has been collected. */
  method Merge(
    collected: seq<CodeFragment>, seen: set<string>, fragments: seq<CodeFragment>, location: CodeFragment -> string,
    ghost before: seq<CodeFragment>)
    returns (more: seq<CodeFragment>, nowSeen: set<string>)
    requires collected == WithoutRepeats(before, location) && seen == LocationsOf(collected, location)
    ensures more == WithoutRepeats(before + fragments, location) && nowSeen == LocationsOf(more, location)
  {
    more, nowSeen := collected, seen;
    assert before + fragments[..0] == before;
    hide LocationsOf;
    for i := 0 to |fragments|
      invariant more == WithoutRepeats(before + fragments[..i], location)
      invariant nowSeen == LocationsOf(more, location)
    {
      assert Init(before + fragments[..i + 1]) == before + fragments[..i];
      if location(fragments[i]) in nowSeen {
        continue;
      }
      LocationsAfter(more, fragments[i], location);
      nowSeen := nowSeen + {location(fragments[i])};
      more := more + [fragments[i]];
    }
    assert fragments[..|fragments|] == fragments;
  }

  lemma NothingFound(search: nat -> seq<CodeFragment>, location: CodeFragment -> string)
    ensures WithoutRepeats(AllFound(search, 0), location) == [] && LocationsOf([], location) == {}
  {
  }

  lemma OneMoreSearch(search: nat -> seq<CodeFragment>, n: nat)
    ensures AllFound(search, n + 1) == AllFound(search, n) + search(n)
  {
  }

  /**
   Searches by the candidates and then by the query, until there is enough. The
   answer is what searching by every term would have given; a query that is not
   expanded is searched as it stands. The `n`-th search returns `search(n)`.
   */
  method SearchCode(
    candidates: seq<string>, limit: int, search: nat -> seq<CodeFragment>, location: CodeFragment -> string)
    returns (answer: Answer, searches: nat)
    ensures candidates == [] ==> answer == Answer(search(0), []) && searches == 1
    ensures candidates != [] ==>
              && answer.expandedTo == candidates
              && answer.fragments == FirstOf(WithoutRepeats(AllFound(search, |candidates| + 1), location), limit)
    ensures candidates != [] ==>
              var merged := WithoutRepeats(AllFound(search, |candidates| + 1), location);
              && answer.fragments <= merged
              && |answer.fragments| == if limit < 0 then 0 else if |merged| < limit then |merged| else limit
    ensures candidates != [] ==>
              && searches <= |candidates| + 1
              && (searches <= |candidates| ==> |WithoutRepeats(AllFound(search, searches), location)| >= limit)
              && (searches > 0 ==> |WithoutRepeats(AllFound(search, searches - 1), location)| < limit)
  {
    hide *;
    if candidates == [] {
      return Answer(search(0), []), 1;
    }
    var collected: seq<CodeFragment>, seen: set<string> := [], {};
    searches := 0;
    NothingFound(search, location);
    while searches < |candidates| + 1
      invariant searches <= |candidates| + 1
      invariant collected == WithoutRepeats(AllFound(search, searches), location)
      invariant seen == LocationsOf(collected, location)
      invariant searches > 0 ==> |WithoutRepeats(AllFound(search, searches - 1), location)| < limit
    {
      if |collected| >= limit {
        break;
      }
      OneMoreSearch(search, searches);
      collected, seen := Merge(collected, seen, search(searches), location, AllFound(search, searches));
      searches := searches + 1;
    }
    if searches <= |candidates| {
      EnoughIsEnough(search, location, searches, |candidates| + 1, limit);
    }
    FirstOnes(WithoutRepeats(AllFound(search, |candidates| + 1), location), limit);
    FirstOnes(collected, limit);
    answer := Answer(FirstOf(collected, limit), candidates);
  }

  // ---- what the merged answer is -------------------------------------------------------------

  lemma {:induction false} SameLocations(fragments: seq<CodeFragment>, location: CodeFragment -> string)
    ensures LocationsOf(WithoutRepeats(fragments, location), location) == LocationsOf(fragments, location)
  {
    if fragments != [] {
      SameLocations(Init(fragments), location);
      assert fragments == Init(fragments) + [Last(fragments)];
      LocationsAfter(Init(fragments), Last(fragments), location);
      LocationsAfter(WithoutRepeats(Init(fragments), location), Last(fragments), location);
      hide LocationsOf;
    }
  }

  /** The fragment at `i` is the first of its location. */
  predicate IsFirst(fragments: seq<CodeFragment>, location: CodeFragment -> string, i: nat)
    requires i < |fragments|
  {
    location(fragments[i]) !in LocationsOf(fragments[..i], location)
  }

  ghost predicate IsAmongFirsts(fragments: seq<CodeFragment>, location: CodeFragment -> string, f: CodeFragment) {
    exists i :: 0 <= i < |fragments| && fragments[i] == f && IsFirst(fragments, location, i)
  }

  lemma FirstsOfOneMore(front: seq<CodeFragment>, last: CodeFragment, location: CodeFragment -> string, f: CodeFragment)
    ensures IsAmongFirsts(front + [last], location, f) <==>
            IsAmongFirsts(front, location, f) || (f == last && location(last) !in LocationsOf(front, location))
  {
    var all := front + [last];
    assert all[..|front|] == front && all[|front|] == last;
    forall i | 0 <= i < |front|
      ensures all[i] == front[i] && IsFirst(all, location, i) == IsFirst(front, location, i)
    {
      assert all[..i] == front[..i];
    }
    hide LocationsOf, IsFirst;
    if IsAmongFirsts(front, location, f) {
      var i :| 0 <= i < |front| && front[i] == f && IsFirst(front, location, i);
      assert all[i] == f && IsFirst(all, location, i);
    }
    assert IsFirst(all, location, |front|) <==> location(last) !in LocationsOf(front, location) by {
      LastIsFirst(front, last, location);
    }
  }

  lemma LastIsFirst(front: seq<CodeFragment>, last: CodeFragment, location: CodeFragment -> string)
    ensures IsFirst(front + [last], location, |front|) <==> location(last) !in LocationsOf(front, location)
  {
    assert (front + [last])[..|front|] == front;
  }

  lemma {:induction false} MergedIsDistinct(fragments: seq<CodeFragment>, location: CodeFragment -> string, i: nat)
    requires i < |WithoutRepeats(fragments, location)|
    ensures IsFirst(WithoutRepeats(fragments, location), location, i)
  {
    var earlier, merged := WithoutRepeats(Init(fragments), location), WithoutRepeats(fragments, location);
    hide LocationsOf;
    if i < |earlier| {
      MergedIsDistinct(Init(fragments), location, i);
      assert merged[..i] == earlier[..i];
    } else {
      LastIsFirst(earlier, Last(fragments), location);
    }
  }

  /**
   Merging keeps the first fragment of every location and nothing else: so no
   location comes twice, and none that any search found is missing.
   */
  lemma {:induction false} MergedAreTheFirst(
    fragments: seq<CodeFragment>, location: CodeFragment -> string, f: CodeFragment)
    ensures var merged := WithoutRepeats(fragments, location);
      && (f in merged <==> IsAmongFirsts(fragments, location, f))
      && LocationsOf(merged, location) == LocationsOf(fragments, location)
      && forall i :: 0 <= i < |merged| ==> IsFirst(merged, location, i)
  {
    SameLocations(fragments, location);
    forall i | 0 <= i < |WithoutRepeats(fragments, location)| {
      MergedIsDistinct(fragments, location, i);
    }
    if fragments != [] {
      hide LocationsOf, IsFirst, IsAmongFirsts;
      MergedAreTheFirst(Init(fragments), location, f);
      SameLocations(Init(fragments), location);
      FirstsOfOneMore(Init(fragments), Last(fragments), location, f);
      assert fragments == Init(fragments) + [Last(fragments)];
    }
  }
}
