/** What students and teachers share: a two-part name with its `fullName` virtual, and
    calendar dates with the `age` virtual. */
module People {

  import Strings
  import Seqs

  datatype Name = Name(first: string, last: string)

  /** `sort({'name.first': 1})`: ordering anything by the code-point order of the first name it
      carries is total and transitive, as a sort needs. */
  lemma FirstNameOrderIsTotalOrder<T(!new)>(name: T -> Name, le: (T, T) -> bool)
    requires forall a, b :: le(a, b) == Strings.LexLe(name(a).first, name(b).first)
    ensures Seqs.Total(le) && Seqs.Transitive(le)
  {
    forall a, b ensures le(a, b) || le(b, a) {
      Strings.LexLeTotal(name(a).first, name(b).first);
    }
    forall a, b, c | le(a, b) && le(b, c) ensures le(a, c) {
      Strings.LexLeTransitive(name(a).first, name(b).first, name(c).first);
    }
  }

  /** The `fullName` virtual: first and last name joined by one space. */
  function FullName(n: Name): (r: string)
    ensures |r| == |n.first| + 1 + |n.last|
    ensures r[..|n.first|] == n.first && r[|n.first|] == ' ' && r[|n.first| + 1..] == n.last
  {
    n.first + " " + n.last
  }

  /** Splitting a full name at its spaces and keeping the first piece and the rest recovers
      the name, provided the first name has no space in it. */
  lemma FullNameSplits(n: Name)
    requires ' ' !in n.first
    ensures var parts := Strings.Split(FullName(n), ' ');
      parts[0] == n.first && Strings.Join(parts[1..], ' ') == n.last
  {
    var s := FullName(n);
    assert forall i :: 0 <= i < |n.first| ==> s[i] == n.first[i];
    Strings.SplitAtFirst(s, ' ', |n.first|);
  }

  /** A calendar day in the server's local time zone; `month` is 0-based as in JavaScript. */
  datatype Date = Date(year: int, month: int, day: int)

  /** Chronological order on days. */
  predicate DateLe(a: Date, b: Date) {
    a.year < b.year || (a.year == b.year && (a.month < b.month || (a.month == b.month && a.day <= b.day)))
  }

  /** The `age` virtual: the difference of the years, less one when this year's birthday
      (same month and day) is still ahead. */
  function Age(dob: Date, today: Date): (r: int)
    ensures r == today.year - dob.year <==> DateLe(Date(today.year, dob.month, dob.day), today)
    ensures r == today.year - dob.year - 1 <==> !DateLe(Date(today.year, dob.month, dob.day), today)
  {
    var age := today.year - dob.year;
    var monthDiff := today.month - dob.month;
    if monthDiff < 0 || (monthDiff == 0 && today.day < dob.day) then age - 1 else age
  }

  /** The `n`-th birthday (the anniversary `n` years on) has been reached by `today`. */
  predicate BirthdayReached(dob: Date, today: Date, n: int) {
    DateLe(Date(dob.year + n, dob.month, dob.day), today)
  }

  /** The age is the number of birthdays reached: the `Age`-th has been, the next has not. */
  lemma AgeCountsBirthdays(dob: Date, today: Date)
    ensures BirthdayReached(dob, today, Age(dob, today))
    ensures !BirthdayReached(dob, today, Age(dob, today) + 1)
  {
  }

  /** Anyone born on or before today has a non-negative age, and only a future date of birth
      gives a negative one. */
  lemma AgeNonNegative(dob: Date, today: Date)
    ensures Age(dob, today) >= 0 <==> DateLe(dob, today)
  {
    AgeCountsBirthdays(dob, today);
  }

  /** Age never decreases as time goes on. */
  lemma AgeMonotone(dob: Date, t1: Date, t2: Date)
    requires DateLe(t1, t2)
    ensures Age(dob, t1) <= Age(dob, t2)
  {
    AgeCountsBirthdays(dob, t1);
    AgeCountsBirthdays(dob, t2);
  }
}
