/**
  The computations of the reports page: the performance band of a score
  (pandas `cut` over right-closed bins), the count / highest / lowest
  summaries of an assignment and of a student, and the selection maps built
  by dictionary comprehensions.
 */
module Reports {
  import opened Wrappers

  // ---------------------------------------------------------------------------
  // Performance bands

  datatype Band = Fail | Pass | Merit | Distinction

  /** The interval `(edges[i], edges[i + 1]]` holds `x`. */
  predicate InBin(x: int, edges: seq<int>, i: int)
    requires 0 <= i && i + 1 < |edges|
  {
    edges[i] < x <= edges[i + 1]
  }

  /**
    pandas `cut(x, bins=edges, labels=labels)` with its default right-closed
    intervals: the label of the first bin `(edges[i], edges[i + 1]]` holding
    `x`, or None (NaN) when no bin does; the lowest edge is excluded. pandas
    raises for edges that do not increase, so only increasing edges are given.
   */
  function Cut<L>(x: int, edges: seq<int>, labels: seq<L>): (r: Option<L>)
    requires |edges| == |labels| + 1 && StrictlyIncreasing(edges)
    ensures r.None? <==> forall i :: 0 <= i < |labels| ==> !InBin(x, edges, i)
    ensures r.Some? ==> exists i :: 0 <= i < |labels| && InBin(x, edges, i) && r.value == labels[i]
    decreases |labels|
  {
    if labels == [] then None
    else if edges[0] < x <= edges[1] then
      assert InBin(x, edges, 0);
      Some(labels[0])
    else
      IncreasingTail(edges);
      var r := Cut(x, edges[1..], labels[1..]);
      assert forall i :: 0 <= i < |labels[1..]| ==> (InBin(x, edges[1..], i) <==> InBin(x, edges, i + 1));
      assert r.Some? ==> exists i :: 0 <= i < |labels| && InBin(x, edges, i) && r.value == labels[i] by {
        if r.Some? {
          var i :| 0 <= i < |labels[1..]| && InBin(x, edges[1..], i) && r.value == labels[1..][i];
          assert InBin(x, edges, i + 1) && r.value == labels[i + 1];
        }
      }
      assert r.None? ==> forall i :: 0 <= i < |labels| ==> !InBin(x, edges, i) by {
        if r.None? {
          forall i | 0 <= i < |labels| ensures !InBin(x, edges, i) {
            if i > 0 { assert !InBin(x, edges[1..], i - 1); }
          }
        }
      }
      r
  }

  predicate StrictlyIncreasing(edges: seq<int>) {
    forall i, j :: 0 <= i < j < |edges| ==> edges[i] < edges[j]
  }

  lemma IncreasingTail(edges: seq<int>)
    requires edges != [] && StrictlyIncreasing(edges)
    ensures StrictlyIncreasing(edges[1..])
  {
    forall a, b | 0 <= a < b < |edges[1..]| ensures edges[1..][a] < edges[1..][b] {
      assert edges[1..][a] == edges[a + 1] && edges[1..][b] == edges[b + 1];
    }
  }

  /** With increasing edges the bins are disjoint: `x` gets the label of the one bin it falls in. */
  lemma {:induction false} CutFindsBin<L>(x: int, edges: seq<int>, labels: seq<L>, i: int)
    requires |edges| == |labels| + 1 && StrictlyIncreasing(edges)
    requires 0 <= i < |labels| && InBin(x, edges, i)
    ensures Cut(x, edges, labels) == Some(labels[i])
    decreases i
  {
    if i > 0 {
      assert !(x <= edges[1]) by {
        assert edges[1] <= edges[i];
      }
      assert InBin(x, edges[1..], i - 1);
      IncreasingTail(edges);
      CutFindsBin(x, edges[1..], labels[1..], i - 1);
    }
  }

  /** The bins and labels of the performance chart. */
  const BandEdges: seq<int> := [0, 39, 59, 69, 100]
  const BandLabels: seq<Band> := [Fail, Pass, Merit, Distinction]

  /** The band table: the bin a score falls in, or none below or at 0 and above 100. */
  lemma BandBins(score: int)
    ensures Cut(score, BandEdges, BandLabels) ==
      if 0 < score <= 39 then Some(Fail)
      else if 39 < score <= 59 then Some(Pass)
      else if 59 < score <= 69 then Some(Merit)
      else if 69 < score <= 100 then Some(Distinction)
      else None
  {
    assert StrictlyIncreasing(BandEdges);
    if 0 < score <= 39 {
      CutFindsBin(score, BandEdges, BandLabels, 0);
    } else if 39 < score <= 59 {
      CutFindsBin(score, BandEdges, BandLabels, 1);
    } else if 59 < score <= 69 {
      CutFindsBin(score, BandEdges, BandLabels, 2);
    } else if 69 < score <= 100 {
      CutFindsBin(score, BandEdges, BandLabels, 3);
    } else {
      assert forall i :: 0 <= i < 4 ==> !InBin(score, BandEdges, i);
    }
  }

  /** The band of a score: Fail (0, 39], Pass (39, 59], Merit (59, 69], Distinction (69, 100]. */
  function BandOf(score: int): (b: Option<Band>)
    ensures b.None? <==> score <= 0 || score > 100
    ensures b == Some(Fail) <==> 0 < score <= 39
    ensures b == Some(Pass) <==> 39 < score <= 59
    ensures b == Some(Merit) <==> 59 < score <= 69
    ensures b == Some(Distinction) <==> 69 < score <= 100
  {
    BandBins(score);
    Cut(score, BandEdges, BandLabels)
  }

  /** The position of a band from Fail to Distinction. */
  function Rank(b: Band): nat {
    match b
    case Fail => 0
    case Pass => 1
    case Merit => 2
    case Distinction => 3
  }

  /** A higher score never falls in a lower band. */
  lemma BandMonotone(s1: int, s2: int)
    requires s1 <= s2 && BandOf(s1).Some? && BandOf(s2).Some?
    ensures Rank(BandOf(s1).value) <= Rank(BandOf(s2).value)
  {
  }

  // ---------------------------------------------------------------------------
  // Summaries

  /** `max(xs)` of a non-empty list. */
  function MaxOf(xs: seq<int>): (m: int)
    requires xs != []
    ensures m in xs
    ensures forall i :: 0 <= i < |xs| ==> xs[i] <= m
  {
    if |xs| == 1 then xs[0]
    else
      var m := MaxOf(xs[..|xs| - 1]);
      assert forall i :: 0 <= i < |xs| - 1 ==> xs[..|xs| - 1][i] == xs[i];
      if xs[|xs| - 1] > m then xs[|xs| - 1] else m
  }

  /** `min(xs)` of a non-empty list. */
  function MinOf(xs: seq<int>): (m: int)
    requires xs != []
    ensures m in xs
    ensures forall i :: 0 <= i < |xs| ==> m <= xs[i]
  {
    if |xs| == 1 then xs[0]
    else
      var m := MinOf(xs[..|xs| - 1]);
      assert forall i :: 0 <= i < |xs| - 1 ==> xs[..|xs| - 1][i] == xs[i];
      if xs[|xs| - 1] < m then xs[|xs| - 1] else m
  }

  /** The figures shown under a table of scores. */
  datatype Summary = Summary(count: nat, highest: int, lowest: int)

  /** Count, highest and lowest of a list of scores; None for an empty list (the page stops or shows nothing). */
  function Summarize(scores: seq<int>): (s: Option<Summary>)
    ensures s.None? <==> scores == []
    ensures s.Some? ==> s.value.count == |scores|
    ensures s.Some? ==> s.value.highest in scores && s.value.lowest in scores
    ensures s.Some? ==> forall i :: 0 <= i < |scores| ==> s.value.lowest <= scores[i] <= s.value.highest
  {
    if scores == [] then None else Some(Summary(|scores|, MaxOf(scores), MinOf(scores)))
  }

  /** One result record of the selected assignment; the student name is NULL without a users row. */
  datatype ResultRecord = ResultRecord(userId: string, studentName: Option<string>, totalScore: int, submittedOn: string)

  /** The assignment summary: total students, highest and lowest score. */
  function AssignmentSummary(records: seq<ResultRecord>): (s: Option<Summary>)
    ensures s.None? <==> records == []
    ensures s.Some? ==> s.value.count == |records|
    ensures s.Some? ==> forall i :: 0 <= i < |records| ==>
                          s.value.lowest <= records[i].totalScore <= s.value.highest
    ensures s.Some? ==> exists i :: 0 <= i < |records| && records[i].totalScore == s.value.highest
    ensures s.Some? ==> exists i :: 0 <= i < |records| && records[i].totalScore == s.value.lowest
  {
    var scores := seq(|records|, i requires 0 <= i < |records| => records[i].totalScore);
    assert forall i :: 0 <= i < |records| ==> scores[i] == records[i].totalScore;
    var s := Summarize(scores);
    assert s.Some? ==> exists i :: 0 <= i < |records| && records[i].totalScore == s.value.highest by {
      if s.Some? {
        var i :| 0 <= i < |scores| && scores[i] == s.value.highest;
      }
    }
    assert s.Some? ==> exists i :: 0 <= i < |records| && records[i].totalScore == s.value.lowest by {
      if s.Some? {
        var i :| 0 <= i < |scores| && scores[i] == s.value.lowest;
      }
    }
    s
  }

  /** One result of the selected student, joined with its assignment title. */
  datatype StudentResult = StudentResult(assignmentTitle: string, score: int, date: string)

  /** The student summary: total assignments, best and lowest score. */
  function StudentSummary(results: seq<StudentResult>): (s: Option<Summary>)
    ensures s.None? <==> results == []
    ensures s.Some? ==> s.value.count == |results|
    ensures s.Some? ==> forall i :: 0 <= i < |results| ==> s.value.lowest <= results[i].score <= s.value.highest
    ensures s.Some? ==> exists i :: 0 <= i < |results| && results[i].score == s.value.highest
    ensures s.Some? ==> exists i :: 0 <= i < |results| && results[i].score == s.value.lowest
  {
    var scores := seq(|results|, i requires 0 <= i < |results| => results[i].score);
    assert forall i :: 0 <= i < |results| ==> scores[i] == results[i].score;
    var s := Summarize(scores);
    assert s.Some? ==> exists i :: 0 <= i < |results| && results[i].score == s.value.highest by {
      if s.Some? {
        var i :| 0 <= i < |scores| && scores[i] == s.value.highest;
      }
    }
    assert s.Some? ==> exists i :: 0 <= i < |results| && results[i].score == s.value.lowest by {
      if s.Some? {
        var i :| 0 <= i < |scores| && scores[i] == s.value.lowest;
      }
    }
    s
  }

  // ---------------------------------------------------------------------------
  // Selection maps

  /** No later pair has the key of pair `i`. */
  predicate LastWithKey<K(==), V>(pairs: seq<(K, V)>, i: int)
    requires 0 <= i < |pairs|
  {
    forall j :: i < j < |pairs| ==> pairs[j].0 != pairs[i].0
  }

  /** `{k: v for (k, v) in pairs}`: later pairs overwrite earlier ones. */
  function LastWins<K(==), V>(pairs: seq<(K, V)>): map<K, V> {
    if pairs == [] then map[]
    else LastWins(pairs[..|pairs| - 1])[pairs[|pairs| - 1].0 := pairs[|pairs| - 1].1]
  }

  /** The keys of the map are exactly the keys of the pairs. */
  lemma {:induction false} LastWinsKeys<K, V>(pairs: seq<(K, V)>, k: K)
    ensures k in LastWins(pairs) <==> exists i :: 0 <= i < |pairs| && pairs[i].0 == k
  {
    if pairs != [] {
      var init := pairs[..|pairs| - 1];
      var last := pairs[|pairs| - 1];
      LastWinsKeys(init, k);
      if k in LastWins(pairs) {
        if k != last.0 {
          var i :| 0 <= i < |init| && init[i].0 == k;
          assert pairs[i].0 == k;
        } else {
          assert pairs[|pairs| - 1].0 == k;
        }
      } else {
        forall i | 0 <= i < |pairs|
          ensures pairs[i].0 != k
        {
          if i < |init| {
            assert init[i] == pairs[i];
          }
        }
      }
    }
  }

  /** A key is bound to the value of the last pair carrying it. */
  lemma {:induction false} LastWinsValue<K, V>(pairs: seq<(K, V)>, i: int)
    requires 0 <= i < |pairs| && LastWithKey(pairs, i)
    ensures pairs[i].0 in LastWins(pairs) && LastWins(pairs)[pairs[i].0] == pairs[i].1
  {
    if i < |pairs| - 1 {
      var init := pairs[..|pairs| - 1];
      assert init[i] == pairs[i];
      assert LastWithKey(init, i) by {
        forall j | i < j < |init|
          ensures init[j].0 != init[i].0
        {
          assert init[j] == pairs[j];
        }
      }
      LastWinsValue(init, i);
      assert pairs[|pairs| - 1].0 != pairs[i].0;
    }
  }

  /** Every binding of the map comes from some pair. */
  lemma LastWinsFromPairs<K, V>(pairs: seq<(K, V)>, k: K)
    requires k in LastWins(pairs)
    ensures exists i :: 0 <= i < |pairs| && pairs[i] == (k, LastWins(pairs)[k])
  {
    LastWinsKeys(pairs, k);
    var j :| 0 <= j < |pairs| && pairs[j].0 == k;
    while j + 1 < |pairs| && exists t :: j < t < |pairs| && pairs[t].0 == k
      invariant 0 <= j < |pairs| && pairs[j].0 == k
      decreases |pairs| - j
    {
      var t :| j < t < |pairs| && pairs[t].0 == k;
      j := t;
    }
    LastWinsValue(pairs, j);
  }

  /** One assignment row: the title column may be NULL. */
  datatype AssignmentRow = AssignmentRow(assignmentId: int, title: Option<string>)

  function TitlePairs(assignments: seq<AssignmentRow>): seq<(Option<string>, int)> {
    seq(|assignments|, i requires 0 <= i < |assignments| => (assignments[i].title, assignments[i].assignmentId))
  }

  /** `{a["title"]: a["assignment_id"] for a in assignments}`: all untitled assignments share the key None. */
  function TitleMap(assignments: seq<AssignmentRow>): map<Option<string>, int> {
    LastWins(TitlePairs(assignments))
  }

  /** The selectable titles are exactly the titles of the assignments, None included. */
  lemma TitleMapKeys(assignments: seq<AssignmentRow>, t: Option<string>)
    ensures t in TitleMap(assignments) <==> exists i :: 0 <= i < |assignments| && assignments[i].title == t
  {
    var pairs := TitlePairs(assignments);
    LastWinsKeys(pairs, t);
    assert forall i :: 0 <= i < |assignments| ==> pairs[i].0 == assignments[i].title;
  }

  /** A title selects the id of the last assignment with that title. */
  lemma TitleMapValue(assignments: seq<AssignmentRow>, i: int)
    requires 0 <= i < |assignments|
    requires forall j :: i < j < |assignments| ==> assignments[j].title != assignments[i].title
    ensures assignments[i].title in TitleMap(assignments)
    ensures TitleMap(assignments)[assignments[i].title] == assignments[i].assignmentId
  {
    var pairs := TitlePairs(assignments);
    assert LastWithKey(pairs, i) by {
      forall j | i < j < |pairs|
        ensures pairs[j].0 != pairs[i].0
      {
        assert pairs[j].0 == assignments[j].title;
      }
    }
    LastWinsValue(pairs, i);
  }

  /**
    `if selected_title: assignment_id = assignment_options[selected_title]`:
    a None (or empty) title is falsy and selects nothing.
   */
  function SelectedAssignment(assignments: seq<AssignmentRow>, choice: Option<string>): (r: Option<int>)
    requires choice in TitleMap(assignments)
    ensures r.None? <==> choice.None? || choice.value == ""
    ensures r.Some? ==> exists i :: 0 <= i < |assignments| && assignments[i] == AssignmentRow(r.value, choice)
  {
    if choice.Some? && choice.value != "" then
      var pairs := TitlePairs(assignments);
      LastWinsFromPairs(pairs, choice);
      assert exists i :: 0 <= i < |assignments| && assignments[i] == AssignmentRow(TitleMap(assignments)[choice], choice) by {
        var i :| 0 <= i < |pairs| && pairs[i] == (choice, TitleMap(assignments)[choice]);
        assert assignments[i] == AssignmentRow(TitleMap(assignments)[choice], choice);
      }
      Some(TitleMap(assignments)[choice])
    else None
  }

  /** One row of the student list: the name is NULL when the user has no users row. */
  datatype StudentRow = StudentRow(userId: string, fullName: Option<string>)

  function StudentPairs(students: seq<StudentRow>): seq<(Option<string>, string)> {
    seq(|students|, i requires 0 <= i < |students| => (students[i].fullName, students[i].userId))
  }

  /** `{s["full_name"]: s["user_id"] for s in students}`: all nameless students share the key None. */
  function StudentMap(students: seq<StudentRow>): map<Option<string>, string> {
    LastWins(StudentPairs(students))
  }

  /** The selectable names are exactly the names of the students, None included. */
  lemma StudentMapKeys(students: seq<StudentRow>, n: Option<string>)
    ensures n in StudentMap(students) <==> exists i :: 0 <= i < |students| && students[i].fullName == n
  {
    var pairs := StudentPairs(students);
    LastWinsKeys(pairs, n);
    assert forall i :: 0 <= i < |students| ==> pairs[i].0 == students[i].fullName;
  }

  /** A name selects the user id of the last student listed under it. */
  lemma StudentMapValue(students: seq<StudentRow>, i: int)
    requires 0 <= i < |students|
    requires forall j :: i < j < |students| ==> students[j].fullName != students[i].fullName
    ensures students[i].fullName in StudentMap(students)
    ensures StudentMap(students)[students[i].fullName] == students[i].userId
  {
    var pairs := StudentPairs(students);
    assert LastWithKey(pairs, i) by {
      forall j | i < j < |pairs|
        ensures pairs[j].0 != pairs[i].0
      {
        assert pairs[j].0 == students[j].fullName;
      }
    }
    LastWinsValue(pairs, i);
  }

  /**
    `if selected_student: user_id = student_map[selected_student]`: a None
    (or empty) key is falsy, so nameless students get no report.
   */
  function SelectedStudent(students: seq<StudentRow>, choice: Option<string>): (r: Option<string>)
    requires choice in StudentMap(students)
    ensures r.None? <==> choice.None? || choice.value == ""
    ensures r.Some? ==> exists i :: 0 <= i < |students| && students[i] == StudentRow(r.value, choice)
  {
    if choice.Some? && choice.value != "" then
      var pairs := StudentPairs(students);
      LastWinsFromPairs(pairs, choice);
      assert exists i :: 0 <= i < |students| && students[i] == StudentRow(StudentMap(students)[choice], choice) by {
        var i :| 0 <= i < |pairs| && pairs[i] == (choice, StudentMap(students)[choice]);
        assert students[i] == StudentRow(StudentMap(students)[choice], choice);
      }
      Some(StudentMap(students)[choice])
    else None
  }
}
