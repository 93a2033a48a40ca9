/**
 * The course page components (part_01/course_information/src/components/Course.js):
 * `Content` turns the parts into one row each, `Total` sums their exercises
 * with `reduce` starting from 0.
 */
module CourseInfo {

  datatype Part = Part(name: string, exercises: int, id: int)

  /** One rendered `Part` row: its React key, its name and its exercise count. */
  datatype Row = Row(key: int, part: string, exercises: int)

  /** The exercises of all parts added up from the last part backwards: the reference sum. */
  function ExerciseSum(parts: seq<Part>): int
    decreases |parts|
  {
    if parts == [] then 0 else parts[0].exercises + ExerciseSum(parts[1..])
  }

  /**
   * `parts.reduce((totalExercises, part) => totalExercises + part.exercises, acc)`:
   * the left fold adds the reference sum to its starting accumulator.
   */
  function Reduce(acc: int, parts: seq<Part>): (r: int)
    ensures r == acc + ExerciseSum(parts)
    decreases |parts|
  {
    if parts == [] then acc else Reduce(acc + parts[0].exercises, parts[1..])
  }

  /** The number shown by `Total`: the fold from 0 is the reference sum. */
  function Total(parts: seq<Part>): (r: int)
    ensures r == ExerciseSum(parts)
  {
    Reduce(0, parts)
  }

  lemma TotalOfNoParts()
    ensures Total([]) == 0
  {
  }

  /** The left fold agrees with the right-recursive sum: first part plus the rest. */
  lemma TotalCons(parts: seq<Part>)
    requires parts != []
    ensures Total(parts) == parts[0].exercises + Total(parts[1..])
  {
  }

  lemma {:induction false} TotalAppend(a: seq<Part>, b: seq<Part>)
    ensures Total(a + b) == Total(a) + Total(b)
    decreases |a|
  {
    if a == [] {
      assert a + b == b;
    } else {
      TotalCons(a);
      TotalCons(a + b);
      assert (a + b)[1..] == a[1..] + b;
      TotalAppend(a[1..], b);
    }
  }

  /** With no negative counts, the total is non-negative and bounds every part. */
  lemma {:induction false} TotalBoundsEachPart(parts: seq<Part>)
    requires forall i :: 0 <= i < |parts| ==> parts[i].exercises >= 0
    ensures Total(parts) >= 0
    ensures forall i :: 0 <= i < |parts| ==> parts[i].exercises <= Total(parts)
    decreases |parts|
  {
    if parts != [] {
      TotalCons(parts);
      TotalBoundsEachPart(parts[1..]);
      assert forall i :: 1 <= i < |parts| ==> parts[i] == parts[1..][i - 1];
    }
  }

  /** Reordering the parts does not change the total. */
  lemma {:induction false} TotalPermutation(a: seq<Part>, b: seq<Part>)
    requires multiset(a) == multiset(b)
    ensures Total(a) == Total(b)
    decreases |a|
  {
    if a == [] {
      assert |b| == |multiset(b)| == 0;
    } else {
      assert a[0] in multiset(b);
      var i :| 0 <= i < |b| && b[i] == a[0];
      var rest := b[..i] + b[i + 1..];
      assert b == b[..i] + [b[i]] + b[i + 1..];
      assert a == [a[0]] + a[1..];
      assert multiset(b) == multiset(b[..i]) + multiset{b[i]} + multiset(b[i + 1..]);
      assert multiset(rest) == multiset(b[..i]) + multiset(b[i + 1..]);
      assert multiset(a) == multiset{a[0]} + multiset(a[1..]);
      assert multiset(a[1..]) == multiset(a) - multiset{a[0]};
      assert multiset(rest) == multiset(b) - multiset{b[i]};
      TotalPermutation(a[1..], rest);
      TotalCons(a);
      TotalAppend(b[..i] + [b[i]], b[i + 1..]);
      TotalAppend(b[..i], [b[i]]);
      TotalAppend(b[..i], b[i + 1..]);
      TotalCons([b[i]]);
    }
  }

  /** `Content`: one row per part, in order, carrying that part's data. */
  function Content(parts: seq<Part>): (rows: seq<Row>)
    ensures |rows| == |parts|
    ensures forall i :: 0 <= i < |parts| ==>
              rows[i].key == parts[i].id && rows[i].part == parts[i].name && rows[i].exercises == parts[i].exercises
  {
    seq(|parts|, i requires 0 <= i < |parts| => Row(parts[i].id, parts[i].name, parts[i].exercises))
  }

  function SumRows(rows: seq<Row>): int
    decreases |rows|
  {
    if rows == [] then 0 else rows[0].exercises + SumRows(rows[1..])
  }

  /** The total shown under the list is the sum of the counts shown in its rows. */
  lemma {:induction false} TotalMatchesRows(parts: seq<Part>)
    ensures SumRows(Content(parts)) == Total(parts)
    decreases |parts|
  {
    if parts != [] {
      TotalCons(parts);
      TotalMatchesRows(parts[1..]);
      assert Content(parts)[1..] == Content(parts[1..]);
    }
  }
}
