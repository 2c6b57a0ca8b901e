/**
 * The student grade table of the user page: the student's `users_grades`
 * rows, sorted by `grade_id` and grouped by `subject_id`
 * (`collect($rows)->sortBy('grade_id')->groupBy('subject_id')`).
 */
module GradeBook {
  import opened Php

  /** A `users_grades` row: its subject, its grade, and the rest of its columns. */
  datatype GradeRow = GradeRow(subjectId: int, gradeId: int, fields: map<string, Value>)

  predicate SortedByGrade(rows: seq<GradeRow>) {
    forall a, b :: 0 <= a < b < |rows| ==> rows[a].gradeId <= rows[b].gradeId
  }

  /** Inserts `x` into sorted `rows`, before the first row whose grade is not below `x`'s. */
  function Insert(x: GradeRow, rows: seq<GradeRow>): (r: seq<GradeRow>)
    requires SortedByGrade(rows)
    ensures SortedByGrade(r)
    ensures multiset(r) == multiset(rows) + multiset{x}
    ensures |r| == |rows| + 1 && (r[0] == x || (rows != [] && r[0] == rows[0]))
  {
    if rows == [] || x.gradeId <= rows[0].gradeId then [x] + rows
    else
      var rest := Insert(x, rows[1..]);
      assert rows == [rows[0]] + rows[1..];
      assert forall b :: 0 <= b < |rest| ==> rows[0].gradeId <= rest[0].gradeId <= rest[b].gradeId;
      [rows[0]] + rest
  }

  /** `sortBy('grade_id')`, as an insertion sort: sorted by grade, a permutation of the rows. */
  function SortByGrade(rows: seq<GradeRow>): (r: seq<GradeRow>)
    ensures SortedByGrade(r)
    ensures multiset(r) == multiset(rows)
  {
    if rows == [] then []
    else
      assert rows == [rows[0]] + rows[1..];
      Insert(rows[0], SortByGrade(rows[1..]))
  }

  /** The rows of subject `s`, in their order in `rows`. */
  function OfSubject(rows: seq<GradeRow>, s: int): (r: seq<GradeRow>)
    ensures forall k :: 0 <= k < |r| ==> r[k].subjectId == s && r[k] in rows
  {
    if rows == [] then []
    else
      var last := rows[|rows| - 1];
      OfSubject(rows[..|rows| - 1], s) + (if last.subjectId == s then [last] else [])
  }

  /** `groupBy('subject_id')`: one pass that appends each row to the group of its subject. */
  function GroupBySubject(rows: seq<GradeRow>): map<int, seq<GradeRow>> {
    if rows == [] then map[]
    else
      var g := GroupBySubject(rows[..|rows| - 1]);
      var x := rows[|rows| - 1];
      g[x.subjectId := (if x.subjectId in g then g[x.subjectId] else []) + [x]]
  }

  /** The grade table of a student. */
  function StudentGrades(rows: seq<GradeRow>): map<int, seq<GradeRow>> {
    GroupBySubject(SortByGrade(rows))
  }

  /** The one-pass grouping has a group for exactly the subjects present, holding that subject's rows in order. */
  lemma {:induction false} GroupIsFilter(rows: seq<GradeRow>)
    ensures forall s :: s in GroupBySubject(rows) <==> OfSubject(rows, s) != []
    ensures forall s :: s in GroupBySubject(rows) ==> GroupBySubject(rows)[s] == OfSubject(rows, s)
  {
    if rows != [] {
      GroupIsFilter(rows[..|rows| - 1]);
    }
  }

  lemma {:induction false} OfSubjectSorted(rows: seq<GradeRow>, s: int)
    requires SortedByGrade(rows)
    ensures SortedByGrade(OfSubject(rows, s))
  {
    if rows != [] {
      var init := rows[..|rows| - 1];
      assert SortedByGrade(init);
      OfSubjectSorted(init, s);
      var f := OfSubject(init, s);
      forall k | 0 <= k < |f|
        ensures f[k].gradeId <= rows[|rows| - 1].gradeId
      {
        var a :| 0 <= a < |init| && init[a] == f[k];
      }
    }
  }

  /** The group of subject `s` holds each row of subject `s` as often as `rows` does, and no other row. */
  lemma {:induction false} OfSubjectCount(rows: seq<GradeRow>, s: int, x: GradeRow)
    ensures multiset(OfSubject(rows, s))[x] == if x.subjectId == s then multiset(rows)[x] else 0
  {
    if rows != [] {
      var init, last := rows[..|rows| - 1], rows[|rows| - 1];
      assert rows == init + [last];
      OfSubjectCount(init, s, x);
    }
  }

  /**
   * The grade table partitions the student's rows: every group is non-empty,
   * holds rows of its own subject only, sorted by grade, and each row appears
   * in the group of its subject exactly as often as it was fetched.
   */
  lemma StudentGradesPartition(rows: seq<GradeRow>)
    ensures var g := StudentGrades(rows);
      && (forall s :: s in g ==> g[s] != [] && SortedByGrade(g[s]))
      && (forall s, k :: s in g && 0 <= k < |g[s]| ==> g[s][k].subjectId == s)
      && (forall x :: x in rows ==> x.subjectId in g)
      && (forall s, x: GradeRow :: s in g ==> multiset(g[s])[x] == if x.subjectId == s then multiset(rows)[x] else 0)
  {
    var sorted := SortByGrade(rows);
    var g := StudentGrades(rows);
    GroupIsFilter(sorted);
    forall s | s in g
      ensures SortedByGrade(g[s])
    {
      OfSubjectSorted(sorted, s);
    }
    forall s, x: GradeRow | s in g
      ensures multiset(g[s])[x] == if x.subjectId == s then multiset(rows)[x] else 0
    {
      OfSubjectCount(sorted, s, x);
    }
    forall x | x in rows
      ensures x.subjectId in g
    {
      OfSubjectCount(sorted, x.subjectId, x);
      assert x in multiset(OfSubject(sorted, x.subjectId));
    }
  }
}
