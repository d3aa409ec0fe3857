/**
 * The records of abitur/models.py: schools, applicants with their two checkboxes, the
 * per-school counters the page shows and the default listing order.
 */
module Models {
  import opened Calendar

  const SECHENOVA := "Сеченовка"
  const PIROGOVA := "Пироговка"

  datatype School = School(name: string)

  /** One applicant; the view updates `isChecked` and `isWinner` in place. */
  class Student {
    var name: string
    var school: School
    var bvi: bool
    var applicationDate: Date
    var fundedOnly: bool
    var isChecked: bool
    var isWinner: bool

    /** A new applicant starts neither checked nor marked as a winner. */
    constructor (name: string, school: School, bvi: bool, applicationDate: Date, fundedOnly: bool)
      ensures this.name == name && this.school == school && this.bvi == bvi
      ensures this.applicationDate == applicationDate && this.fundedOnly == fundedOnly
      ensures !isChecked && !isWinner
    {
      this.name := name;
      this.school := school;
      this.bvi := bvi;
      this.applicationDate := applicationDate;
      this.fundedOnly := fundedOnly;
      isChecked := false;
      isWinner := false;
    }
  }

  // ----------------------------------------------------------------- counters

  /** The extra condition a counter puts on a school's applicants. */
  datatype Flag = AnyApplicant | Bvi | FundedOnly | Winner

  predicate Matches(s: Student, schoolName: string, flag: Flag)
    reads s
  {
    s.school.name == schoolName &&
    match flag
    case AnyApplicant => true
    case Bvi => s.bvi
    case FundedOnly => s.fundedOnly
    case Winner => s.isWinner
  }

  /** `qs.filter(school__name=schoolName, <flag>=True)`, in the order of `qs`. */
  function Select(qs: seq<Student>, schoolName: string, flag: Flag): (r: seq<Student>)
    reads qs
    ensures |r| <= |qs|
    ensures forall i :: 0 <= i < |r| ==> r[i] in qs && Matches(r[i], schoolName, flag)
    ensures forall i :: 0 <= i < |qs| && Matches(qs[i], schoolName, flag) ==> qs[i] in r
  {
    if qs == [] then []
    else
      var rest := Select(qs[1..], schoolName, flag);
      assert forall i :: 1 <= i < |qs| ==> qs[i] == qs[1..][i - 1];
      if Matches(qs[0], schoolName, flag) then [qs[0]] + rest else rest
  }

  /** A filter never repeats an applicant: each is selected at most as often as it occurs. */
  lemma {:induction false} SelectSubMultiset(qs: seq<Student>, schoolName: string, flag: Flag)
    ensures multiset(Select(qs, schoolName, flag)) <= multiset(qs)
  {
    if qs != [] {
      var rest := Select(qs[1..], schoolName, flag);
      SelectSubMultiset(qs[1..], schoolName, flag);
      MultisetOfFirst(qs);
      if Matches(qs[0], schoolName, flag) {
        assert Select(qs, schoolName, flag) == [qs[0]] + rest;
      } else {
        assert Select(qs, schoolName, flag) == rest;
      }
    }
  }

  lemma MultisetOfFirst<T>(s: seq<T>)
    requires s != []
    ensures multiset(s) == multiset{s[0]} + multiset(s[1..])
  {
    assert s == [s[0]] + s[1..];
  }

  function Count(qs: seq<Student>, schoolName: string, flag: Flag): nat
    reads qs
  {
    |Select(qs, schoolName, flag)|
  }

  function SechCount(qs: seq<Student>): nat reads qs { Count(qs, SECHENOVA, AnyApplicant) }
  function SechBviCount(qs: seq<Student>): nat reads qs { Count(qs, SECHENOVA, Bvi) }
  function PirogovaCount(qs: seq<Student>): nat reads qs { Count(qs, PIROGOVA, AnyApplicant) }
  function PirogovaBviCount(qs: seq<Student>): nat reads qs { Count(qs, PIROGOVA, Bvi) }
  function SechFundedOnlyCount(qs: seq<Student>): nat reads qs { Count(qs, SECHENOVA, FundedOnly) }
  function PirogovaFundedOnlyCount(qs: seq<Student>): nat reads qs { Count(qs, PIROGOVA, FundedOnly) }
  function PirogovaWinnersCount(qs: seq<Student>): nat reads qs { Count(qs, PIROGOVA, Winner) }
  function SechenovaWinnersCount(qs: seq<Student>): nat reads qs { Count(qs, SECHENOVA, Winner) }

  /** Filtering keeps the order of the queryset: the filter of two querysets put together is the two filters one after the other. */
  lemma {:induction false} SelectAppend(a: seq<Student>, b: seq<Student>, schoolName: string, flag: Flag)
    ensures Select(a + b, schoolName, flag) == Select(a, schoolName, flag) + Select(b, schoolName, flag)
  {
    if a == [] {
      assert a + b == b;
    } else {
      assert (a + b)[0] == a[0] && (a + b)[1..] == a[1..] + b;
      SelectAppend(a[1..], b, schoolName, flag);
    }
  }

  /** A counter over two querysets put together is the sum of the two counters. */
  lemma CountAppend(a: seq<Student>, b: seq<Student>, schoolName: string, flag: Flag)
    ensures Count(a + b, schoolName, flag) == Count(a, schoolName, flag) + Count(b, schoolName, flag)
  {
    SelectAppend(a, b, schoolName, flag);
  }

  /** The counter of one applicant is 1 if it matches and 0 otherwise. */
  lemma CountOne(s: Student, schoolName: string, flag: Flag)
    ensures Count([s], schoolName, flag) == if Matches(s, schoolName, flag) then 1 else 0
  {
    assert [s][1..] == [];
  }

  /** The bvi, funded-only and winner counters of a school only narrow its applicant counter. */
  lemma {:induction false} FlagCountWithinSchool(qs: seq<Student>, schoolName: string, flag: Flag)
    ensures Count(qs, schoolName, flag) <= Count(qs, schoolName, AnyApplicant)
  {
    if qs != [] {
      FlagCountWithinSchool(qs[1..], schoolName, flag);
    }
  }

  /** No applicant is counted for both schools, since the two names differ. */
  lemma {:induction false} SchoolCountsWithinTotal(qs: seq<Student>)
    ensures SechCount(qs) + PirogovaCount(qs) <= |qs|
  {
    if qs != [] {
      SchoolCountsWithinTotal(qs[1..]);
      assert SECHENOVA[0] != PIROGOVA[0];
    }
  }

  // ---------------------------------------------------------------- ordering

  predicate NewerOrSame(a: Student, b: Student)
    reads a, b
  {
    NotAfter(b.applicationDate, a.applicationDate)
  }

  predicate NewestFirstOrder(r: seq<Student>)
    reads r
  {
    forall i, j :: 0 <= i < j < |r| ==> NewerOrSame(r[i], r[j])
  }

  /** Puts `s` in front of the first applicant of `r` that applied no later than it. */
  function Insert(s: Student, r: seq<Student>): (q: seq<Student>)
    reads r, s
    requires NewestFirstOrder(r)
    ensures |q| == |r| + 1 && (q[0] == s || (r != [] && q[0] == r[0]))
    ensures forall i :: 0 <= i < |q| ==> q[i] == s || q[i] in r
    ensures NewestFirstOrder(q)
  {
    if r == [] || NewerOrSame(s, r[0]) then
      [s] + r
    else
      var rest := Insert(s, r[1..]);
      assert NewerOrSame(r[0], rest[0]);
      [r[0]] + rest
  }

  /** `Meta.ordering = ['-application_date']`: the listing order, most recent applications first. */
  function NewestFirst(qs: seq<Student>): (r: seq<Student>)
    reads qs
    ensures |r| == |qs|
    ensures forall i :: 0 <= i < |r| ==> r[i] in qs
    ensures NewestFirstOrder(r)
  {
    if qs == [] then []
    else
      var tail := NewestFirst(qs[1..]);
      assert forall i :: 0 <= i < |tail| ==> tail[i] in qs[1..];
      Insert(qs[0], tail)
  }

  lemma {:induction false} InsertPermutes(s: Student, r: seq<Student>)
    requires NewestFirstOrder(r)
    ensures multiset(Insert(s, r)) == multiset(r) + multiset{s}
  {
    if r != [] && !NewerOrSame(s, r[0]) {
      var rest := Insert(s, r[1..]);
      InsertPermutes(s, r[1..]);
      MultisetOfFirst(r);
      assert Insert(s, r) == [r[0]] + rest;
    }
  }

  /** The listing holds the same applicants, each as often as the query set does. */
  lemma {:induction false} NewestFirstPermutes(qs: seq<Student>)
    ensures multiset(NewestFirst(qs)) == multiset(qs)
  {
    if qs != [] {
      var tail := NewestFirst(qs[1..]);
      NewestFirstPermutes(qs[1..]);
      InsertPermutes(qs[0], tail);
      assert NewestFirst(qs) == Insert(qs[0], tail);
      MultisetOfFirst(qs);
    }
  }
}
