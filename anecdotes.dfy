/**
 * The anecdotes app (part_01/anecdotes/src/App.js): a vote tally keyed by
 * anecdote text, and the anecdote with the most votes.
 *
 * The vote tally is a JavaScript object. Its keys keep insertion order
 * (`Object.keys`, `Object.values`), so it is modelled as the list of keys in
 * that order together with a map from key to count.
 */
module Anecdotes {
  import opened Collections

  /** The fixed list of anecdotes the app shows. */
  const AnecdoteList: seq<string> := [
    "If it hurts, do it more often.",
    "Adding manpower to a late software project makes it later!",
    "The first 90 percent of the code accounts for the first 10 percent of the development time...The remaining 10 percent of the code accounts for the other 90 percent of the development time.",
    "Any fool can write code that a computer can understand. Good programmers write code that humans can understand.",
    "Premature optimization is the root of all evil.",
    "Debugging is twice as hard as writing the code in the first place. Therefore, if you write the code as cleverly as possible, you are, by definition, not smart enough to debug it.",
    "Programming without an extremely heavy use of console.log is same as if a doctor would refuse to use x-rays or blood tests when diagnosing patients."
  ]

  datatype Tally = Tally(keys: seq<string>, count: map<string, int>)
  {
    /** The keys are listed once each, and they are exactly the keys of the map. */
    predicate Valid()
    {
      && (forall i, j :: 0 <= i < j < |keys| ==> keys[i] != keys[j])
      && (forall k :: k in count ==> k in keys)
      && (forall i :: 0 <= i < |keys| ==> keys[i] in count)
    }

    /** `Object.values(votes)`: the counts in key order. */
    function Values(): (vs: seq<int>)
      requires Valid()
      ensures |vs| == |keys|
      ensures forall i :: 0 <= i < |keys| ==> vs[i] == count[keys[i]]
    {
      seq(|keys|, i requires 0 <= i < |keys| => count[keys[i]])
    }
  }

  predicate Distinct(s: seq<string>)
  {
    forall i, j :: 0 <= i < j < |s| ==> s[i] != s[j]
  }

  /** The elements of `s` in order of their first occurrence. */
  function FirstOccurrences(s: seq<string>): (r: seq<string>)
    ensures Distinct(r)
    ensures forall x :: x in r <==> x in s
    decreases |s|
  {
    if s == [] then []
    else
      var d := FirstOccurrences(s[..|s| - 1]);
      assert forall x :: x in s <==> x in s[..|s| - 1] || x == s[|s| - 1] by {
        assert s == s[..|s| - 1] + [s[|s| - 1]];
      }
      if s[|s| - 1] in d then d else d + [s[|s| - 1]]
  }

  /** Every occurrence of `b` in `s` comes after some occurrence of `a`. */
  predicate OccursBefore(s: seq<string>, a: string, b: string)
  {
    forall k :: 0 <= k < |s| && s[k] == b ==> exists m :: 0 <= m < k && s[m] == a
  }

  /** The keys are in order of first occurrence: an earlier key first occurs earlier. */
  lemma {:induction false} FirstOccurrencesOrder(s: seq<string>)
    ensures forall i, j :: 0 <= i < j < |FirstOccurrences(s)| ==>
              OccursBefore(s, FirstOccurrences(s)[i], FirstOccurrences(s)[j])
    decreases |s|
  {
    if s != [] {
      var init, last := s[..|s| - 1], s[|s| - 1];
      var d, r := FirstOccurrences(init), FirstOccurrences(s);
      FirstOccurrencesOrder(init);
      forall i, j | 0 <= i < j < |r|
        ensures OccursBefore(s, r[i], r[j])
      {
        forall k | 0 <= k < |s| && s[k] == r[j]
          ensures exists m :: 0 <= m < k && s[m] == r[i]
        {
          if j < |d| {
            assert r[i] == d[i] && r[j] == d[j];
            if k < |s| - 1 {
              assert init[k] == d[j];
              var m :| 0 <= m < k && init[m] == d[i];
              assert s[m] == r[i];
            } else {
              assert d[j] in init;
              var k' :| 0 <= k' < |init| && init[k'] == d[j];
              var m :| 0 <= m < k' && init[m] == d[i];
              assert s[m] == r[i];
            }
          } else {
            assert r == d + [last] && r[j] == last && last !in d;
            assert last !in init;
            assert k == |s| - 1;
            assert r[i] == d[i] && d[i] in init;
            var m :| 0 <= m < |init| && init[m] == d[i];
            assert s[m] == r[i];
          }
        }
      }
    }
  }

  /** A list without repetitions is its own list of first occurrences. */
  lemma {:induction false} FirstOccurrencesOfDistinct(s: seq<string>)
    requires Distinct(s)
    ensures FirstOccurrences(s) == s
    decreases |s|
  {
    if s != [] {
      var init := s[..|s| - 1];
      assert Distinct(init);
      FirstOccurrencesOfDistinct(init);
      assert s[|s| - 1] !in init;
      assert s == init + [s[|s| - 1]];
    }
  }

  lemma AnecdoteListDistinct()
    ensures Distinct(AnecdoteList)
  {
  }

  /**
   * `anecdotes.forEach(anecdote => initialVotes[anecdote] = 0)` starting from
   * `{}`: one key per anecdote, in first-occurrence order, each counting 0.
   */
  method InitialVotes(anecdotes: seq<string>) returns (t: Tally)
    ensures t.Valid()
    ensures t.keys == FirstOccurrences(anecdotes)
    ensures forall a :: a in t.count <==> a in anecdotes
    ensures forall a :: a in t.count ==> t.count[a] == 0
  {
    t := Tally([], map[]);
    var i := 0;
    while i < |anecdotes|
      invariant 0 <= i <= |anecdotes|
      invariant t.Valid()
      invariant t.keys == FirstOccurrences(anecdotes[..i])
      invariant forall a :: a in t.count ==> t.count[a] == 0
    {
      var a := anecdotes[i];
      assert anecdotes[..i + 1][..i] == anecdotes[..i];
      t := Tally(if a in t.count then t.keys else t.keys + [a], t.count[a := 0]);
      i := i + 1;
    }
    assert anecdotes[..i] == anecdotes;
  }

  /**
   * `newVotes[key] += 1` on a copy of the tally: that key's count goes up by
   * one, and every other count and the key order stay as they were.
   */
  function Vote(t: Tally, key: string): (r: Tally)
    requires t.Valid() && key in t.count
    ensures r.Valid()
    ensures r.keys == t.keys && r.count.Keys == t.count.Keys
    ensures r.count[key] == t.count[key] + 1
    ensures forall k :: k in t.count && k != key ==> r.count[k] == t.count[k]
  {
    t.(count := t.count[key := t.count[key] + 1])
  }

  /** The largest value of a non-empty list. */
  function MaxOf(vs: seq<int>): (m: int)
    requires vs != []
    ensures m in vs
    ensures forall i :: 0 <= i < |vs| ==> vs[i] <= m
    decreases |vs|
  {
    if |vs| == 1 then vs[0]
    else
      var rest := MaxOf(vs[1..]);
      assert forall i :: 1 <= i < |vs| ==> vs[i] == vs[1..][i - 1];
      if vs[0] >= rest then vs[0] else rest
  }

  /** `vs.indexOf(v)` for a value that occurs: the position of its first occurrence. */
  function IndexOf(vs: seq<int>, v: int): (i: nat)
    requires v in vs
    ensures i < |vs| && vs[i] == v
    ensures forall j :: 0 <= j < i ==> vs[j] != v
    decreases |vs|
  {
    if vs[0] == v then 0
    else
      var i := IndexOf(vs[1..], v);
      assert forall j :: 1 <= j <= i ==> vs[j] == vs[1..][j - 1];
      i + 1
  }

  /** A bound on every value of the tally bounds every count. */
  lemma ValuesBoundCounts(t: Tally, m: int)
    requires t.Valid()
    requires forall i :: 0 <= i < |t.keys| ==> t.Values()[i] <= m
    ensures forall k :: k in t.count ==> t.count[k] <= m
  {
    forall k | k in t.count
      ensures t.count[k] <= m
    {
      var i :| 0 <= i < |t.keys| && t.keys[i] == k;
      assert t.Values()[i] == t.count[k];
    }
  }

  /**
   * `anecdoteWithMostVotes()`: the first key, in key order, whose count is the
   * largest. An empty tally has no such key (the source yields `undefined`).
   */
  function AnecdoteWithMostVotes(t: Tally): (r: Option<string>)
    requires t.Valid()
    ensures r.None? <==> t.keys == []
    ensures r.Some? ==> r.value in t.count && forall k :: k in t.count ==> t.count[k] <= t.count[r.value]
    ensures r.Some? ==> exists i :: 0 <= i < |t.keys| && t.keys[i] == r.value &&
                                    forall j :: 0 <= j < i ==> t.count[t.keys[j]] < t.count[r.value]
  {
    var anecdoteRankings := t.Values();
    if anecdoteRankings == [] then None
    else
      var mostVotes := MaxOf(anecdoteRankings);
      var anecdoteIndex := IndexOf(anecdoteRankings, mostVotes);
      ValuesBoundCounts(t, mostVotes);
      assert t.count[t.keys[anecdoteIndex]] == mostVotes;
      assert forall j :: 0 <= j < anecdoteIndex ==> t.count[t.keys[j]] == anecdoteRankings[j] < mostVotes;
      Some(t.keys[anecdoteIndex])
  }

  class App {
    var selected: nat
    var votes: Tally

    /** The vote tally always has exactly the anecdotes as keys, in list order. */
    ghost predicate Valid()
      reads this
    {
      selected < |AnecdoteList| && votes.Valid() && votes.keys == AnecdoteList
    }

    constructor ()
      ensures Valid()
      ensures selected == 0
      ensures forall a :: a in votes.count ==> votes.count[a] == 0
    {
      selected := 0;
      var initialVotes := InitialVotes(AnecdoteList);
      AnecdoteListDistinct();
      FirstOccurrencesOfDistinct(AnecdoteList);
      votes := initialVotes;
    }

    /** "next anecdote": `random` stands for `Math.floor(Math.random() * anecdotes.length)`. */
    method HandleClickForNextAnecdote(random: nat)
      requires Valid()
      requires random < |AnecdoteList|
      modifies this`selected
      ensures Valid() && selected == random
    {
      selected := random;
    }

    /** "vote": a copy of the tally with the shown anecdote's count raised replaces it. */
    method HandleClickForVote()
      requires Valid()
      modifies this`votes
      ensures Valid()
      ensures votes == Vote(old(votes), AnecdoteList[selected])
    {
      var shown := AnecdoteList[selected];
      assert votes.keys[selected] == shown;
      var newVotes := Vote(votes, shown);
      votes := newVotes;
    }

    function MostVoted(): (r: Option<string>)
      reads this
      requires Valid()
      ensures r.Some? && r.value in AnecdoteList
    {
      AnecdoteWithMostVotes(votes)
    }
  }
}
