/**
 * The figures of src/features/admin/AdminDashboard.tsx: four totals folded over the stored class
 * list, and the class list decorated with a per-class student count. The page only reads the store.
 */
module AdminDashboard {
  import opened Wrappers
  import opened Types
  import CreateClass

  /** `cls.students ? cls.students.length : 0`, and the same for subjects and events. */
  function StudentCount(c: ClassRecord): nat { |Roster(c)| }
  function SubjectCount(c: ClassRecord): nat { if c.subjects.Some? then |c.subjects.value| else 0 }
  function EventCount(c: ClassRecord): nat { if c.events.Some? then |c.events.value| else 0 }

  /** `classes.reduce((sum, cls) => sum + f(cls), 0)`: a left fold, so the last class is added last. */
  function SumStudents(classes: seq<ClassRecord>): nat {
    if |classes| == 0 then 0 else SumStudents(classes[..|classes| - 1]) + StudentCount(classes[|classes| - 1])
  }

  function SumSubjects(classes: seq<ClassRecord>): nat {
    if |classes| == 0 then 0 else SumSubjects(classes[..|classes| - 1]) + SubjectCount(classes[|classes| - 1])
  }

  function SumEvents(classes: seq<ClassRecord>): nat {
    if |classes| == 0 then 0 else SumEvents(classes[..|classes| - 1]) + EventCount(classes[|classes| - 1])
  }

  datatype Stats = Stats(totalClasses: nat, totalStudents: nat, totalSubjects: nat, totalEvents: nat)

  function ComputeStats(classes: seq<ClassRecord>): (r: Stats)
    ensures r.totalClasses == |classes|
    ensures |classes| == 0 ==> r == Stats(0, 0, 0, 0)
  {
    Stats(|classes|, SumStudents(classes), SumSubjects(classes), SumEvents(classes))
  }

  /** A class as the list shows it: all its fields, plus `studentCount`. */
  datatype ClassWithCount = ClassWithCount(cls: ClassRecord, studentCount: nat)

  function Decorate(classes: seq<ClassRecord>): (r: seq<ClassWithCount>)
    ensures |r| == |classes|
    ensures forall i :: 0 <= i < |r| ==> r[i].cls == classes[i] && r[i].studentCount == |Roster(classes[i])|
  {
    seq(|classes|, i requires 0 <= i < |classes| => ClassWithCount(classes[i], StudentCount(classes[i])))
  }

  function SumCounts(items: seq<ClassWithCount>): nat {
    if |items| == 0 then 0 else SumCounts(items[..|items| - 1]) + items[|items| - 1].studentCount
  }

  /** The per-class counts the list shows add up to the students total. */
  lemma {:induction false} DecoratedCountsSumToTotal(classes: seq<ClassRecord>)
    ensures SumCounts(Decorate(classes)) == ComputeStats(classes).totalStudents
  {
    if |classes| > 0 {
      var init := classes[..|classes| - 1];
      assert Decorate(classes)[..|classes| - 1] == Decorate(init);
      DecoratedCountsSumToTotal(init);
    }
  }

  /** Appending a class adds its own counts to each total and one to the class count. */
  lemma AppendAddsCounts(classes: seq<ClassRecord>, c: ClassRecord)
    ensures ComputeStats(classes + [c]) ==
      Stats(|classes| + 1, SumStudents(classes) + StudentCount(c),
            SumSubjects(classes) + SubjectCount(c), SumEvents(classes) + EventCount(c))
  {
    assert (classes + [c])[..|classes|] == classes;
  }

  /** Creating a class adds one class and nothing to the other totals, its arrays being empty. */
  lemma NewClassAddsOneClass(classes: seq<ClassRecord>, id: string, name: string, code: string)
    ensures var before, after := ComputeStats(classes), ComputeStats(classes + [CreateClass.NewClass(id, name, code)]);
      after == before.(totalClasses := before.totalClasses + 1)
  {
    AppendAddsCounts(classes, CreateClass.NewClass(id, name, code));
  }

  /** No single class has more students than the total. */
  lemma {:induction false} TotalBoundsEachClass(classes: seq<ClassRecord>, i: nat)
    requires i < |classes|
    ensures StudentCount(classes[i]) <= ComputeStats(classes).totalStudents
  {
    var init := classes[..|classes| - 1];
    if i < |classes| - 1 {
      assert init[i] == classes[i];
      TotalBoundsEachClass(init, i);
    }
  }
}
